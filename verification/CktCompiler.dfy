/**
 `ckt_t::init_solver`: compiling a netlist to clauses.  Node `i` becomes variable
 `i + 1`; the models of the clauses are the valuations of the netlist.
 */
module CktCompiler {
  import opened Cnf
  import opened Netlist
  import opened GateClauses
  import SatSolver
  import ClauseLists

  /** The node bits in a model of the compiled clauses. */
  function NodeBits(c: Ckt, m: Model): (v: Model)
    ensures |v| == |c.nodes|
  {
    seq(|c.nodes|, i requires 0 <= i < |c.nodes| => Bit(m, i + 1))
  }

  function NodeVars(ins: seq<nat>): (vs: seq<nat>)
    ensures |vs| == |ins|
  {
    seq(|ins|, i requires 0 <= i < |ins| => ins[i] + 1)
  }

  /** The gates of `c` other than those a skipping compilation leaves out. */
  ghost predicate Kept(c: Ckt, skip: bool, i: nat) {
    i < |c.nodes| && c.nodes[i].Gate? && !(skip && c.nodes[i].added)
  }

  ghost predicate KeptHold(c: Ckt, v: Model, skip: bool)
    requires WellFormed(c)
  {
    forall i :: 0 <= i < |c.nodes| && Kept(c, skip, i) ==> GateHolds(c, v, i)
  }

  /** The literals are over node variables only. */
  ghost predicate OverNodes(c: Ckt, cs: seq<Clause>) {
    forall cl, l :: cl in cs && l in cl ==> 1 <= l.v <= |c.nodes|
  }

  ghost predicate Compiles(c: Ckt, before: seq<Clause>, after: seq<Clause>, skip: bool)
    requires WellFormed(c)
  {
    && (forall m :: Sat(m, after) <==> Sat(m, before) && KeptHold(c, NodeBits(c, m), skip))
    && (OverNodes(c, before) ==> OverNodes(c, after))
  }

  lemma KeptHoldAll(c: Ckt, v: Model)
    requires WellFormed(c) && |v| == |c.nodes|
    ensures KeptHold(c, v, false) <==> IsVal(c, v)
  {
    if KeptHold(c, v, false) {
      forall i | 0 <= i < |c.nodes| ensures GateHolds(c, v, i) {
        assert c.nodes[i].Gate? ==> Kept(c, false, i);
      }
    }
  }

  /** The clauses of gate `i` say that its variable has the gate's value. */
  lemma GateEncoded(c: Ckt, i: nat, cls: seq<Clause>)
    requires WellFormed(c) && i < |c.nodes| && c.nodes[i].Gate?
    requires Encodes(c.nodes[i].func, NodeVars(c.nodes[i].fanins), i + 1, cls)
    ensures forall m :: Sat(m, cls) <==> GateHolds(c, NodeBits(c, m), i)
    ensures OverNodes(c, cls)
  {
    var ins := c.nodes[i].fanins;
    forall m
      ensures Sat(m, cls) <==> GateHolds(c, NodeBits(c, m), i)
    {
      forall k | 0 <= k < |ins|
        ensures Bit(m, NodeVars(ins)[k]) == Bit(NodeBits(c, m), ins[k])
      {
        assert ins[k] in ins;
      }
      assert Vals(m, NodeVars(ins)) == Vals(NodeBits(c, m), ins);
    }
    forall cl, l | cl in cls && l in cl
      ensures 1 <= l.v <= |c.nodes|
    {
      if l.v != i + 1 {
        var k :| 0 <= k < |ins| && NodeVars(ins)[k] == l.v;
        assert ins[k] in ins;
      }
    }
  }

  /** Gate `c.gates[k]`'s clauses have been added for every `k` below `n`. */
  ghost predicate CompiledTo(c: Ckt, before: seq<Clause>, now: seq<Clause>, skip: bool, n: nat)
    requires WellFormed(c) && n <= |c.gates|
  {
    && (forall m :: Sat(m, now) <==> Sat(m, before) && GatesHoldTo(c, NodeBits(c, m), skip, n))
    && (OverNodes(c, before) ==> OverNodes(c, now))
  }

  ghost predicate GatesHoldTo(c: Ckt, v: Model, skip: bool, n: nat)
    requires WellFormed(c) && n <= |c.gates|
  {
    forall k :: 0 <= k < n && Kept(c, skip, c.gates[k]) ==> GateHolds(c, v, c.gates[k])
  }

  lemma CompileStep(c: Ckt, before: seq<Clause>, now: seq<Clause>, skip: bool, n: nat, cls: seq<Clause>)
    requires WellFormed(c) && n < |c.gates| && CompiledTo(c, before, now, skip, n)
    requires Kept(c, false, c.gates[n])
    requires Encodes(c.nodes[c.gates[n]].func, NodeVars(c.nodes[c.gates[n]].fanins), c.gates[n] + 1, cls)
    ensures Kept(c, skip, c.gates[n]) ==> CompiledTo(c, before, now + cls, skip, n + 1)
    ensures !Kept(c, skip, c.gates[n]) ==> CompiledTo(c, before, now, skip, n + 1)
  {
    hide WellFormed, Encodes, GateHolds, Sat, GatesHoldTo, NodeBits;
    GateEncoded(c, c.gates[n], cls);
    forall m
      ensures Kept(c, skip, c.gates[n]) ==>
        (Sat(m, now + cls) <==> Sat(m, before) && GatesHoldTo(c, NodeBits(c, m), skip, n + 1))
      ensures !Kept(c, skip, c.gates[n]) ==>
        (Sat(m, now) <==> Sat(m, before) && GatesHoldTo(c, NodeBits(c, m), skip, n + 1))
    {
      SatAppend(m, now, cls);
      OneMoreHolds(c, NodeBits(c, m), skip, n);
    }
  }

  lemma OneMoreHolds(c: Ckt, v: Model, skip: bool, n: nat)
    requires WellFormed(c) && n < |c.gates|
    ensures GatesHoldTo(c, v, skip, n + 1) <==>
      GatesHoldTo(c, v, skip, n) && (Kept(c, skip, c.gates[n]) ==> GateHolds(c, v, c.gates[n]))
  {
  }

  lemma CompileDone(c: Ckt, before: seq<Clause>, now: seq<Clause>, skip: bool)
    requires WellFormed(c) && CompiledTo(c, before, now, skip, |c.gates|)
    ensures Compiles(c, before, now, skip)
  {
    forall m
      ensures GatesHoldTo(c, NodeBits(c, m), skip, |c.gates|) <==> KeptHold(c, NodeBits(c, m), skip)
    {
      forall i | 0 <= i < |c.nodes| && Kept(c, skip, i)
        ensures i in c.gates
      {
      }
      forall k | 0 <= k < |c.gates|
        ensures c.gates[k] < |c.nodes|
      {
        assert c.gates[k] in c.gates;
      }
    }
  }

  method AddToSolver(S: SatSolver.Solver, cls: seq<Clause>)
    requires S.Valid() && Below(cls, S.numVars)
    modifies S`clauses
    ensures S.Valid() && S.clauses == old(S.clauses) + cls
  {
    for i := 0 to |cls|
      invariant S.Valid() && S.clauses == old(S.clauses) + cls[..i]
    {
      assert cls[i] in cls;
      S.AddClause(cls[i]);
      assert cls[..i + 1] == cls[..i] + [cls[i]];
    }
    assert cls[..|cls|] == cls;
  }

  method AddToList(S: ClauseLists.ClauseList, cls: seq<Clause>)
    requires S.Valid() && Below(cls, S.NVars()) && forall c :: c in cls ==> c != []
    modifies S
    ensures S.Valid() && S.NVars() == old(S.NVars()) && S.Contents() == old(S.Contents()) + cls
  {
    for i := 0 to |cls|
      invariant S.Valid() && S.NVars() == old(S.NVars()) && S.Contents() == old(S.Contents()) + cls[..i]
    {
      assert cls[i] in cls;
      S.AddClause(cls[i]);
      assert cls[..i + 1] == cls[..i] + [cls[i]];
    }
    assert cls[..|cls|] == cls;
  }

  method MakeMappings(n: nat) returns (mappings: seq<Lit>)
    ensures |mappings| == n && forall i :: 0 <= i < n ==> mappings[i] == MkLit(i + 1)
  {
    mappings := [];
    for i := 0 to n
      invariant |mappings| == i && forall k :: 0 <= k < i ==> mappings[k] == MkLit(k + 1)
    {
      mappings := mappings + [MkLit(i + 1)];
    }
  }

  method MakeVars(S: SatSolver.Solver, n: nat)
    requires S.Valid()
    modifies S`numVars
    ensures S.Valid() && S.numVars == (if old(S.numVars) < n + 2 then n + 2 else old(S.numVars))
  {
    while S.numVars <= n + 1
      invariant S.Valid() && old(S.numVars) <= S.numVars
      invariant S.numVars <= n + 2 || S.numVars == old(S.numVars)
    {
      var v := S.NewVar();
    }
  }

  method MakeListVars(S: ClauseLists.ClauseList, n: nat)
    requires S.Valid()
    modifies S
    ensures S.Valid() && S.Contents() == old(S.Contents())
    ensures S.NVars() == if old(S.NVars()) < n + 2 then n + 2 else old(S.NVars())
  {
    while S.NVars() <= n + 1
      invariant S.Valid() && S.Contents() == old(S.Contents()) && old(S.NVars()) <= S.NVars()
      invariant S.NVars() <= n + 2 || S.NVars() == old(S.NVars())
      decreases n + 2 - S.NVars()
    {
      S.NewVar();
    }
  }

  method CompileInto(c: Ckt, i: nat, S: SatSolver.Solver, ghost before: seq<Clause>)
    requires WellFormed(c) && Compilable(c) && S.Valid() && i < |c.gates| && S.numVars >= |c.nodes| + 2
    requires CompiledTo(c, before, S.clauses, false, i)
    modifies S`clauses
    ensures S.Valid() && CompiledTo(c, before, S.clauses, false, i + 1)
  {
    var g := c.gates[i];
    assert g in c.gates;
    var cls := AddClauses(c.nodes[g].func, NodeVars(c.nodes[g].fanins), g + 1);
    GateEncoded(c, g, cls);
    CompileStep(c, before, S.clauses, false, i, cls);
    AddToSolver(S, cls);
  }

  /** Compiles every gate into `S`; `mappings[i]` is the literal of node `i`. */
  method InitSolver(c: Ckt, S: SatSolver.Solver) returns (mappings: seq<Lit>)
    requires WellFormed(c) && Compilable(c) && S.Valid()
    modifies S`numVars, S`clauses
    ensures S.Valid() && S.numVars == (if old(S.numVars) < |c.nodes| + 2 then |c.nodes| + 2 else old(S.numVars))
    ensures Compiles(c, old(S.clauses), S.clauses, false)
    ensures |mappings| == |c.nodes| && forall i :: 0 <= i < |c.nodes| ==> mappings[i] == MkLit(i + 1)
  {
    MakeVars(S, |c.nodes|);
    var i := 0;
    while i != |c.gates|
      modifies S`clauses
      invariant 0 <= i <= |c.gates| && S.Valid()
      invariant CompiledTo(c, old(S.clauses), S.clauses, false, i)
    {
      CompileInto(c, i, S, old(S.clauses));
      i := i + 1;
    }
    CompileDone(c, old(S.clauses), S.clauses, false);
    mappings := MakeMappings(|c.nodes|);
  }

  method CompileGate(
    c: Ckt, i: nat, S1: SatSolver.Solver, S2: ClauseLists.ClauseList, skip: bool,
    ghost before1: seq<Clause>, ghost before2: seq<Clause>)
    requires WellFormed(c) && Compilable(c) && S1.Valid() && S2.Valid() && i < |c.gates|
    requires S1.numVars >= |c.nodes| + 2 && S2.NVars() >= |c.nodes| + 2
    requires CompiledTo(c, before1, S1.clauses, false, i)
    requires CompiledTo(c, before2, S2.Contents(), skip, i)
    modifies S1`clauses, S2
    ensures S1.Valid() && S2.Valid() && S2.NVars() == old(S2.NVars())
    ensures CompiledTo(c, before1, S1.clauses, false, i + 1)
    ensures CompiledTo(c, before2, S2.Contents(), skip, i + 1)
  {
    var g := c.gates[i];
    assert g in c.gates;
    var cls := AddClauses(c.nodes[g].func, NodeVars(c.nodes[g].fanins), g + 1);
    GateEncoded(c, g, cls);
    CompileStep(c, before1, S1.clauses, false, i, cls);
    CompileStep(c, before2, S2.Contents(), skip, i, cls);
    AddToSolver(S1, cls);
    if !c.nodes[g].added || !skip {
      AddToList(S2, cls);
    }
  }

  /** Compiles into a solver and, optionally without newly added gates, into a clause list. */
  method InitSolverAndList(c: Ckt, S1: SatSolver.Solver, S2: ClauseLists.ClauseList, skip: bool)
    returns (mappings: seq<Lit>)
    requires WellFormed(c) && Compilable(c) && S1.Valid() && S2.Valid()
    modifies S1`numVars, S1`clauses, S2
    ensures S1.Valid() && S2.Valid()
    ensures S1.numVars == (if old(S1.numVars) < |c.nodes| + 2 then |c.nodes| + 2 else old(S1.numVars))
    ensures Compiles(c, old(S1.clauses), S1.clauses, false)
    ensures Compiles(c, old(S2.Contents()), S2.Contents(), skip)
    ensures |mappings| == |c.nodes| && forall i :: 0 <= i < |c.nodes| ==> mappings[i] == MkLit(i + 1)
  {
    MakeVars(S1, |c.nodes|);
    MakeListVars(S2, |c.nodes|);
    var i := 0;
    while i != |c.gates|
      modifies S1`clauses, S2
      invariant 0 <= i <= |c.gates| && S1.Valid() && S2.Valid()
      invariant S2.NVars() >= |c.nodes| + 2
      invariant CompiledTo(c, old(S1.clauses), S1.clauses, false, i)
      invariant CompiledTo(c, old(S2.Contents()), S2.Contents(), skip, i)
    {
      CompileGate(c, i, S1, S2, skip, old(S1.clauses), old(S2.Contents()));
      i := i + 1;
    }
    CompileDone(c, old(S1.clauses), S1.clauses, false);
    CompileDone(c, old(S2.Contents()), S2.Contents(), skip);
    mappings := MakeMappings(|c.nodes|);
  }

  // ----- the compiled clauses determine the valuation -----

  /** A model of the right shape for a valuation `v`: variable 0 is unused. */
  ghost function ModelOf(c: Ckt, v: Model): (m: Model)
    requires |v| == |c.nodes|
    ensures |m| == |c.nodes| + 2 && NodeBits(c, m) == v
  {
    var m := [false] + v + [false];
    assert forall i :: 0 <= i < |v| ==> m[i + 1] == v[i];
    m
  }

  /**
   For an acyclic netlist the compiled clauses have, for each key and input, a
   model over the node variables; in every such model the node variables are
   the values the netlist computes.
   */
  lemma CompiledExactlyOneModel(c: Ckt, cs: seq<Clause>, k: seq<bool>, x: seq<bool>)
    requires WellFormed(c) && Acyclic(c) && Fits(c, k, x)
    requires Compiles(c, [], cs, false)
    ensures Sat(ModelOf(c, Eval(c, k, x)), cs)
    ensures forall m :: Sat(m, cs) && KeyOf(c, NodeBits(c, m)) == k && InOf(c, NodeBits(c, m)) == x ==>
      NodeBits(c, m) == Eval(c, k, x)
  {
    KeptHoldAll(c, Eval(c, k, x));
    forall m | Sat(m, cs) && KeyOf(c, NodeBits(c, m)) == k && InOf(c, NodeBits(c, m)) == x
      ensures NodeBits(c, m) == Eval(c, k, x)
    {
      KeptHoldAll(c, NodeBits(c, m));
      ValuationUnique(c, NodeBits(c, m), Eval(c, k, x));
    }
  }
}
