/**
 The queries that `ckt_t::init_solver` hands to the CEGIS solver: the clauses of an
 acyclic circuit, with its inputs divided between the two blocks and perhaps more
 clauses on the first block.
 */
module CegCircuit {
  import opened Cnf
  import opened Netlist
  import opened CktCompiler
  import opened CegSolver

  /** `eqs` and `uqs` divide the inputs of the circuit between them. */
  ghost predicate DividesInputs(c: Ckt, eqs: seq<nat>, uqs: seq<nat>) {
    && (forall i: nat :: i in eqs || i in uqs <==> i < |c.nodes| && !c.nodes[i].Gate?)
    && (forall i :: i in eqs ==> i !in uqs)
  }

  ghost predicate OverVars(cs: seq<Clause>, vs: seq<nat>) {
    forall cl, l :: cl in cs && l in cl ==> l.v in vs
  }

  /** `cs` says that the nodes form a valuation and that `side` holds. */
  ghost predicate CompiledWith(c: Ckt, side: seq<Clause>, cs: seq<Clause>)
    requires WellFormed(c)
  {
    forall m :: Sat(m, cs) <==> Sat(m, side) && IsVal(c, NodeBits(c, m))
  }

  function CircuitQuery(c: Ckt, eqs: seq<nat>, uqs: seq<nat>, out: nat, cs: seq<Clause>): Query {
    Query(|c.nodes| + 2, NodeVars(eqs), NodeVars(uqs), out + 1, cs)
  }

  lemma NodeVarsVals(c: Ckt, m: Model, ins: seq<nat>)
    requires forall i :: i in ins ==> i < |c.nodes|
    ensures Vals(m, NodeVars(ins)) == Vals(NodeBits(c, m), ins)
  {
    forall k | 0 <= k < |ins|
      ensures Vals(m, NodeVars(ins))[k] == Vals(NodeBits(c, m), ins)[k]
    {
      assert ins[k] in ins;
    }
  }

  lemma SideAgrees(m: Model, m': Model, side: seq<Clause>, vs: seq<nat>)
    requires OverVars(side, vs) && Vals(m, vs) == Vals(m', vs) && Sat(m, side)
    ensures Sat(m', side)
  {
    ValsAgree(m, m', vs);
    forall cl | cl in side
      ensures SatClause(m', cl)
    {
      var l :| l in cl && Holds(m, l);
      assert Holds(m', l);
    }
  }

  /** Any first block of a model goes with any second block. */
  lemma EveryReply(
      c: Ckt, side: seq<Clause>, cs: seq<Clause>, eqs: seq<nat>, uqs: seq<nat>, out: nat, n: Model, w: Model)
    requires WellFormed(c) && Acyclic(c) && DividesInputs(c, eqs, uqs) && CompiledWith(c, side, cs)
    requires OverVars(side, NodeVars(eqs)) && Solves(CircuitQuery(c, eqs, uqs, out, cs), n)
    ensures Admits(CircuitQuery(c, eqs, uqs, out, cs), Vals(n, NodeVars(eqs)), Vals(w, NodeVars(uqs)))
  {
    var base := seq(|c.nodes|, i requires 0 <= i < |c.nodes| => if i in eqs then Bit(n, i + 1) else Bit(w, i + 1));
    var v := ValuationExists(c, base);
    var m := ModelOf(c, v);
    NodeVarsVals(c, m, eqs);
    NodeVarsVals(c, n, eqs);
    NodeVarsVals(c, m, uqs);
    NodeVarsVals(c, w, uqs);
    ValsAgree(v, NodeBits(c, n), eqs);
    ValsAgree(v, NodeBits(c, w), uqs);
    SideAgrees(n, m, side, NodeVars(eqs));
    assert Plays(CircuitQuery(c, eqs, uqs, out, cs), Vals(n, NodeVars(eqs)), Vals(w, NodeVars(uqs)), m);
  }

  lemma BlocksDetermine(
      c: Ckt, side: seq<Clause>, cs: seq<Clause>, eqs: seq<nat>, uqs: seq<nat>, n: Model, n': Model, i: nat)
    requires WellFormed(c) && Acyclic(c) && DividesInputs(c, eqs, uqs) && CompiledWith(c, side, cs)
    requires Sat(n, cs) && Sat(n', cs) && i < |c.nodes|
    requires Vals(n, NodeVars(eqs)) == Vals(n', NodeVars(eqs)) && Vals(n, NodeVars(uqs)) == Vals(n', NodeVars(uqs))
    ensures Bit(n, i + 1) == Bit(n', i + 1)
  {
    var v, v' := NodeBits(c, n), NodeBits(c, n');
    NodeVarsVals(c, n, eqs);
    NodeVarsVals(c, n', eqs);
    NodeVarsVals(c, n, uqs);
    NodeVarsVals(c, n', uqs);
    ValsAgree(v, v', eqs);
    ValsAgree(v, v', uqs);
    var rank :| IsRank(c, rank);
    ValuationAgree(c, rank, v, v', i);
  }

  /** A circuit query meets what the solver's answer rests on. */
  lemma CircuitIsFunctional(c: Ckt, side: seq<Clause>, cs: seq<Clause>, eqs: seq<nat>, uqs: seq<nat>, out: nat)
    requires WellFormed(c) && Acyclic(c) && DividesInputs(c, eqs, uqs) && CompiledWith(c, side, cs)
    requires OverVars(side, NodeVars(eqs)) && out < |c.nodes|
    ensures Functional(CircuitQuery(c, eqs, uqs, out, cs))
  {
    var q := CircuitQuery(c, eqs, uqs, out, cs);
    forall n, w: Model | Solves(q, n) && |w| == q.size
      ensures Admits(q, Vals(n, q.eqs), Vals(w, q.uqs))
    {
      EveryReply(c, side, cs, eqs, uqs, out, n, w);
    }
    forall n, n' | Solves(q, n) && Plays(q, Vals(n, q.eqs), Vals(n, q.uqs), n')
      ensures Bit(n, q.out) == Bit(n', q.out)
    {
      BlocksDetermine(c, side, cs, eqs, uqs, n, n', out);
    }
  }

  /** Under the first block of `v`, node `out` is true whatever the other inputs are. */
  ghost predicate AlwaysTrue(c: Ckt, eqs: seq<nat>, out: nat, v: Model)
    requires WellFormed(c)
  {
    forall v' :: IsVal(c, v') && Vals(v', eqs) == Vals(v, eqs) ==> Bit(v', out)
  }

  lemma WinnerAlwaysTrue(
      c: Ckt, side: seq<Clause>, cs: seq<Clause>, eqs: seq<nat>, uqs: seq<nat>, out: nat, m: Model, v': Model)
    requires WellFormed(c) && Acyclic(c) && DividesInputs(c, eqs, uqs) && CompiledWith(c, side, cs)
    requires OverVars(side, NodeVars(eqs)) && out < |c.nodes|
    requires Sat(m, cs) && Wins(CircuitQuery(c, eqs, uqs, out, cs), Vals(m, NodeVars(eqs)))
    requires IsVal(c, v') && Vals(v', eqs) == Vals(NodeBits(c, m), eqs)
    ensures Bit(v', out)
  {
    var q := CircuitQuery(c, eqs, uqs, out, cs);
    var m' := ModelOf(c, v');
    NodeVarsVals(c, m', eqs);
    NodeVarsVals(c, m, eqs);
    SideAgrees(m, m', side, NodeVars(eqs));
    assert GoodAt(q, Vals(m, q.eqs), Vals(m', q.uqs));
    var n :| Plays(q, Vals(m, q.eqs), Vals(m', q.uqs), n) && Bit(n, q.out);
    BlocksDetermine(c, side, cs, eqs, uqs, n, m', out);
    assert NodeBits(c, m')[out] == v'[out];
  }

  lemma AlwaysTrueWins(
      c: Ckt, side: seq<Clause>, cs: seq<Clause>, eqs: seq<nat>, uqs: seq<nat>, out: nat, m: Model)
    requires WellFormed(c) && Acyclic(c) && DividesInputs(c, eqs, uqs) && CompiledWith(c, side, cs)
    requires OverVars(side, NodeVars(eqs)) && out < |c.nodes|
    requires Sat(m, cs) && AlwaysTrue(c, eqs, out, NodeBits(c, m))
    ensures ExistsForall(CircuitQuery(c, eqs, uqs, out, cs))
  {
    var q := CircuitQuery(c, eqs, uqs, out, cs);
    var n := ModelOf(c, NodeBits(c, m));
    NodeVarsVals(c, m, eqs);
    NodeVarsVals(c, n, eqs);
    SideAgrees(m, n, side, NodeVars(eqs));
    CircuitIsFunctional(c, side, cs, eqs, uqs, out);
    forall n' | Solves(q, n') && Vals(n', q.eqs) == Vals(n, q.eqs)
      ensures Bit(n', q.out)
    {
      NodeVarsVals(c, n', eqs);
      assert Bit(NodeBits(c, n'), out);
    }
    UnrefutedWins(q, n);
  }

  /** What the answer says about the circuit. */
  lemma AnswerAboutCircuit(c: Ckt, side: seq<Clause>, cs: seq<Clause>, eqs: seq<nat>, uqs: seq<nat>, out: nat)
    requires WellFormed(c) && Acyclic(c) && DividesInputs(c, eqs, uqs) && CompiledWith(c, side, cs)
    requires OverVars(side, NodeVars(eqs)) && out < |c.nodes|
    ensures ExistsForall(CircuitQuery(c, eqs, uqs, out, cs)) <==>
      exists m :: Sat(m, cs) && AlwaysTrue(c, eqs, out, NodeBits(c, m))
  {
    hide CompiledWith, DividesInputs, OverVars, WellFormed, Acyclic;
    var q := CircuitQuery(c, eqs, uqs, out, cs);
    if ExistsForall(q) {
      var e :| Wins(q, e);
      var w: Model := seq(q.size, _ => false);
      assert GoodAt(q, e, Vals(w, q.uqs));
      var m :| Plays(q, e, Vals(w, q.uqs), m) && Bit(m, q.out);
      forall v' | IsVal(c, v') && Vals(v', eqs) == Vals(NodeBits(c, m), eqs)
        ensures Bit(v', out)
      {
        WinnerAlwaysTrue(c, side, cs, eqs, uqs, out, m, v');
      }
      assert AlwaysTrue(c, eqs, out, NodeBits(c, m));
    }
    if m :| Sat(m, cs) && AlwaysTrue(c, eqs, out, NodeBits(c, m)) {
      AlwaysTrueWins(c, side, cs, eqs, uqs, out, m);
    }
  }
}
