/**
 What recording one observed input/output pair does to a solver.

 A solver sees a netlist through a view: node `i` is variable `loc[i]`.  The
 stored clauses, renamed to the view and partially evaluated at the observed
 pair, constrain exactly the key variables of the view: a key survives iff the
 netlist under that key maps the observed input to the observed output.
 */
module Recording {
  import opened Cnf
  import opened Netlist
  import opened CktCompiler
  import opened Rewriting
  import opened ClauseLists
  import SatSolver

  /** Node bits seen through a view. */
  function View(m: Model, loc: seq<nat>): Model {
    Vals(m, loc)
  }

  ghost predicate IsView(c: Ckt, loc: seq<nat>, size: nat) {
    |loc| == |c.nodes| && NoDup(loc) && forall i :: 0 <= i < |loc| ==> loc[i] < size
  }

  /** The rename map takes the literal compiled for node `i` to the one of the view. */
  ghost predicate RenamesTo(c: Ckt, ren: Option<map<Lit, Lit>>, loc: seq<nat>) {
    && |loc| == |c.nodes|
    && (forall l: Lit :: 1 <= l.v <= |c.nodes| ==> Rename(l, ren) == Lit(loc[l.v - 1], l.neg))
    && (ren.Some? ==> forall l: Lit :: 1 <= l.v <= |c.nodes| ==> l in ren.value)
  }

  ghost predicate Observed(c: Ckt, i: nat) {
    i in c.cktInputs || i in c.outputs
  }

  /** Exactly the circuit inputs and outputs are fixed, to their values in `w`. */
  ghost predicate FixesPair(c: Ckt, loc: seq<nat>, a: Partial, w: Model)
    requires IsView(c, loc, |a|) && |w| == |c.nodes|
  {
    forall i :: 0 <= i < |c.nodes| ==> a[loc[i]] == if Observed(c, i) then Some(w[i]) else None
  }

  ghost predicate FlagsKeys(c: Ckt, loc: seq<nat>, flags: seq<bool>)
    requires |loc| == |c.nodes|
  {
    forall i :: 0 <= i < |c.nodes| ==> Flagged(flags, loc[i]) == c.nodes[i].KeyIn?
  }

  /** Outputs wired straight to a key input: the one shape the recording cannot see. */
  ghost predicate NoKeyOutput(c: Ckt)
    requires WellFormed(c)
  {
    forall o :: o in c.outputs ==> !c.nodes[o].KeyIn?
  }

  /** Renamed clauses say of the view what the stored clauses say of the node variables. */
  lemma RenamedMeaning(c: Ckt, cs: seq<Clause>, ren: Option<map<Lit, Lit>>, loc: seq<nat>, n: Model)
    requires WellFormed(c) && Compiles(c, [], cs, false) && RenamesTo(c, ren, loc)
    ensures Sat(n, RenameAll(cs, ren)) <==> IsVal(c, View(n, loc))
  {
    var m := ModelOf(c, View(n, loc));
    forall k | 0 <= k < |cs|
      ensures SatClause(n, RenameAll(cs, ren)[k]) <==> SatClause(m, cs[k])
    {
      assert cs[k] in cs;
      RenamedClause(c, cs[k], ren, loc, n, m);
    }
    if Sat(n, RenameAll(cs, ren)) {
      forall cl | cl in cs ensures SatClause(m, cl) {
        var k :| 0 <= k < |cs| && cs[k] == cl;
        assert RenameAll(cs, ren)[k] in RenameAll(cs, ren);
      }
    }
    if Sat(m, cs) {
      forall cl | cl in RenameAll(cs, ren) ensures SatClause(n, cl) {
        var k :| 0 <= k < |cs| && RenameAll(cs, ren)[k] == cl;
        assert cs[k] in cs;
      }
    }
    KeptHoldAll(c, View(n, loc));
  }

  lemma RenamedClause(c: Ckt, cl: Clause, ren: Option<map<Lit, Lit>>, loc: seq<nat>, n: Model, m: Model)
    requires RenamesTo(c, ren, loc) && NodeBits(c, m) == View(n, loc)
    requires forall l :: l in cl ==> 1 <= l.v <= |c.nodes|
    ensures SatClause(n, RenameClause(cl, ren)) <==> SatClause(m, cl)
  {
    var r := RenameClause(cl, ren);
    forall j | 0 <= j < |cl|
      ensures Holds(n, r[j]) == Holds(m, cl[j])
    {
      assert cl[j] in cl;
      RenamedLit(c, cl[j], ren, loc, n, m);
    }
    ClauseImage(cl, r, n, m);
  }

  lemma RenamedLit(c: Ckt, l: Lit, ren: Option<map<Lit, Lit>>, loc: seq<nat>, n: Model, m: Model)
    requires RenamesTo(c, ren, loc) && NodeBits(c, m) == View(n, loc) && 1 <= l.v <= |c.nodes|
    ensures Holds(n, Rename(l, ren)) == Holds(m, l)
  {
    var i := l.v - 1;
    assert NodeBits(c, m)[i] == View(n, loc)[i];
  }

  lemma ClauseImage(cl: Clause, r: Clause, n: Model, m: Model)
    requires |r| == |cl| && forall j :: 0 <= j < |cl| ==> Holds(n, r[j]) == Holds(m, cl[j])
    ensures SatClause(n, r) <==> SatClause(m, cl)
  {
    if l :| l in cl && Holds(m, l) {
      var j :| 0 <= j < |cl| && cl[j] == l;
      assert r[j] in r;
    }
    if l :| l in r && Holds(n, l) {
      var j :| 0 <= j < |r| && r[j] == l;
      assert cl[j] in cl;
    }
  }

  lemma RenamedBelow(c: Ckt, cs: seq<Clause>, ren: Option<map<Lit, Lit>>, loc: seq<nat>, size: nat)
    requires OverNodes(c, cs) && RenamesTo(c, ren, loc) && IsView(c, loc, size)
    ensures Below(RenameAll(cs, ren), size)
  {
    forall cl | cl in RenameAll(cs, ren)
      ensures ClauseBelow(cl, size)
    {
      var k :| 0 <= k < |cs| && RenameAll(cs, ren)[k] == cl;
      forall l | l in cl
        ensures l.v < size
      {
        var j :| 0 <= j < |cl| && cl[j] == l;
        assert cs[k] in cs && cs[k][j] in cs[k];
      }
    }
  }

  // ----- which keys survive -----

  /** Inputs and outputs of `v` seen through the view are those of `w`. */
  lemma ObservedAgree(c: Ckt, v: Model, w: Model)
    requires WellFormed(c) && |v| == |w| == |c.nodes|
    ensures (forall i :: 0 <= i < |c.nodes| && Observed(c, i) ==> v[i] == w[i]) <==>
      InOf(c, v) == InOf(c, w) && OutOf(c, v) == OutOf(c, w)
  {
    if InOf(c, v) == InOf(c, w) && OutOf(c, v) == OutOf(c, w) {
      forall i | 0 <= i < |c.nodes| && Observed(c, i)
        ensures v[i] == w[i]
      {
        if i in c.cktInputs {
          var j :| 0 <= j < |c.cktInputs| && c.cktInputs[j] == i;
          assert InOf(c, v)[j] == InOf(c, w)[j];
        } else {
          var j :| 0 <= j < |c.outputs| && c.outputs[j] == i;
          assert OutOf(c, v)[j] == OutOf(c, w)[j];
        }
      }
    }
    if forall i :: 0 <= i < |c.nodes| && Observed(c, i) ==> v[i] == w[i] {
      ValsAgree(v, w, c.cktInputs);
      ValsAgree(v, w, c.outputs);
    }
  }

  lemma ValsAgree(v: Model, w: Model, ins: seq<nat>)
    requires forall j :: j in ins ==> Bit(v, j) == Bit(w, j)
    ensures Vals(v, ins) == Vals(w, ins)
  {
    assert forall j :: 0 <= j < |ins| ==> ins[j] in ins;
  }

  /** The key of the view, with any bit that is itself an observed output replaced by its observed value. */
  ghost function SeenKey(c: Ckt, k: seq<bool>, w: Model): (r: seq<bool>)
    requires WellFormed(c) && |k| == |c.keyInputs| && |w| == |c.nodes|
    ensures |r| == |k|
  {
    seq(|k|, j requires 0 <= j < |k| =>
      assert c.keyInputs[j] in c.keyInputs;
      if c.keyInputs[j] in c.outputs then w[c.keyInputs[j]] else k[j])
  }

  lemma SeenKeySame(c: Ckt, k: seq<bool>, w: Model)
    requires WellFormed(c) && |k| == |c.keyInputs| && |w| == |c.nodes| && NoKeyOutput(c)
    ensures SeenKey(c, k, w) == k
  {
    forall j | 0 <= j < |k|
      ensures SeenKey(c, k, w)[j] == k[j]
    {
      assert c.keyInputs[j] in c.keyInputs;
    }
  }

  /** A witness's own key is the seen key. */
  lemma WitnessKey(c: Ckt, loc: seq<nat>, a: Partial, flags: seq<bool>, m: Model, w: Model, n: Model)
    requires WellFormed(c) && |w| == |c.nodes| && IsView(c, loc, |a|)
    requires FixesPair(c, loc, a, w) && FlagsKeys(c, loc, flags)
    requires Respects(n, a) && AgreeFlagged(n, m, a, flags)
    ensures KeyOf(c, View(n, loc)) == SeenKey(c, KeyOf(c, View(m, loc)), w)
    ensures forall i :: 0 <= i < |c.nodes| && Observed(c, i) ==> View(n, loc)[i] == w[i]
  {
    forall j | 0 <= j < |c.keyInputs|
      ensures KeyOf(c, View(n, loc))[j] == SeenKey(c, KeyOf(c, View(m, loc)), w)[j]
    {
      var i := c.keyInputs[j];
      assert i in c.keyInputs;
      assert i !in c.cktInputs;
    }
  }

  /** The valuation that gives the view the node bits `v`, and other variables their fixed value or `m`'s. */
  ghost function Overlay(loc: seq<nat>, a: Partial, m: Model, v: Model): (n: Model)
    requires |v| == |loc|
    ensures |n| == |a|
  {
    seq(|a|, u requires 0 <= u < |a| =>
      if a[u].Some? then a[u].value
      else if u in loc then exists i :: 0 <= i < |loc| && loc[i] == u && v[i]
      else Bit(m, u))
  }

  lemma OverlayView(c: Ckt, loc: seq<nat>, a: Partial, flags: seq<bool>, m: Model, w: Model, v: Model)
    requires WellFormed(c) && |w| == |v| == |c.nodes| && IsView(c, loc, |a|)
    requires FixesPair(c, loc, a, w) && FlagsKeys(c, loc, flags)
    requires forall i :: 0 <= i < |c.nodes| && Observed(c, i) ==> v[i] == w[i]
    requires KeyOf(c, v) == SeenKey(c, KeyOf(c, View(m, loc)), w)
    ensures View(Overlay(loc, a, m, v), loc) == v
    ensures Respects(Overlay(loc, a, m, v), a) && AgreeFlagged(Overlay(loc, a, m, v), m, a, flags)
  {
    var n := Overlay(loc, a, m, v);
    forall i | 0 <= i < |c.nodes|
      ensures n[loc[i]] == v[i]
    {
      assert loc[i] in loc;
      if a[loc[i]].None? && v[i] {
        assert 0 <= i < |loc| && loc[i] == loc[i] && v[i];
      }
    }
    forall u | 0 <= u < |a| && a[u].None? && Flagged(flags, u)
      ensures Bit(n, u) == Bit(m, u)
    {
      if u in loc {
        var i :| 0 <= i < |loc| && loc[i] == u;
        assert c.nodes[i].KeyIn? && i in c.keyInputs;
        var j :| 0 <= j < |c.keyInputs| && c.keyInputs[j] == i;
        assert KeyOf(c, v)[j] == SeenKey(c, KeyOf(c, View(m, loc)), w)[j];
      }
    }
  }

  /**
   The surviving keys, for every netlist: a model of the other variables extends
   to the fresh ones iff the netlist under the seen key reproduces the observed pair.
   */
  lemma SurvivingKeys(
    c: Ckt, cs: seq<Clause>, ren: Option<map<Lit, Lit>>, loc: seq<nat>, a: Partial, flags: seq<bool>,
    m: Model, w: Model)
    requires WellFormed(c) && Acyclic(c) && IsVal(c, w)
    requires Compiles(c, [], cs, false) && RenamesTo(c, ren, loc) && IsView(c, loc, |a|)
    requires FixesPair(c, loc, a, w) && FlagsKeys(c, loc, flags)
    ensures (exists n :: Witnesses(n, m, RenameAll(cs, ren), a, flags)) <==>
      Outputs(c, SeenKey(c, KeyOf(c, View(m, loc)), w), InOf(c, w)) == OutOf(c, w)
  {
    var k := SeenKey(c, KeyOf(c, View(m, loc)), w);
    if n :| Witnesses(n, m, RenameAll(cs, ren), a, flags) {
      RenamedMeaning(c, cs, ren, loc, n);
      WitnessKey(c, loc, a, flags, m, w, n);
      ObservedAgree(c, View(n, loc), w);
      ValuationIsEval(c, View(n, loc));
    }
    if Outputs(c, k, InOf(c, w)) == OutOf(c, w) {
      var v := Eval(c, k, InOf(c, w));
      ObservedAgree(c, v, w);
      OverlayView(c, loc, a, flags, m, w, v);
      var n := Overlay(loc, a, m, v);
      RenamedMeaning(c, cs, ren, loc, n);
      assert Witnesses(n, m, RenameAll(cs, ren), a, flags);
    }
  }

  // ----- recording into a solver -----

  ghost predicate Reproduces(c: Ckt, k: seq<bool>, x: seq<bool>, y: seq<bool>)
    requires WellFormed(c) && Acyclic(c) && Fits(c, k, x)
  {
    Outputs(c, k, x) == y
  }

  /** `after` has, over the models of `before`, exactly those whose view reproduces the pair of `w`. */
  ghost predicate Restricts(
    c: Ckt, loc: seq<nat>, w: Model, lo: nat, before: seq<Clause>, hi: nat, after: seq<Clause>)
    requires WellFormed(c) && Acyclic(c)
  {
    && lo <= hi && Below(after, hi)
    && (forall m' :: |m'| == hi && Sat(m', after) ==>
          Sat(m'[..lo], before) && Reproduces(c, KeyOf(c, View(m'[..lo], loc)), InOf(c, w), OutOf(c, w)))
    && (forall m :: |m| == lo && Sat(m, before) && Reproduces(c, KeyOf(c, View(m, loc)), InOf(c, w), OutOf(c, w)) ==>
          exists m' :: |m'| == hi && m <= m' && Sat(m', after))
  }

  lemma RestrictsBy(
    c: Ckt, loc: seq<nat>, w: Model, lo: nat, before: seq<Clause>, hi: nat, added: seq<Clause>)
    requires WellFormed(c) && Acyclic(c) && lo <= hi && Below(before, lo) && Below(before + added, hi)
    requires forall m :: |m| == lo ==>
      (Extensible(m, hi, added) <==> Reproduces(c, KeyOf(c, View(m, loc)), InOf(c, w), OutOf(c, w)))
    ensures Restricts(c, loc, w, lo, before, hi, before + added)
  {
    forall m' | |m'| == hi && Sat(m', before + added)
      ensures Sat(m'[..lo], before) && Reproduces(c, KeyOf(c, View(m'[..lo], loc)), InOf(c, w), OutOf(c, w))
    {
      SatAppend(m', before, added);
      SatAgree(m', m'[..lo], lo, before);
      assert m'[..lo] <= m';
      assert Extensible(m'[..lo], hi, added);
    }
    forall m | |m| == lo && Sat(m, before) && Reproduces(c, KeyOf(c, View(m, loc)), InOf(c, w), OutOf(c, w))
      ensures exists m' :: |m'| == hi && m <= m' && Sat(m', before + added)
    {
      var m' :| |m'| == hi && m <= m' && Sat(m', added);
      SatAppend(m', before, added);
      SatAgree(m, m', lo, before);
      assert Sat(m', before + added);
    }
  }

  /** Adds the rewritten clauses for the pair of `w`; its assertion that no clause is emptied holds. */
  method RecordPair(
    c: Ckt, cl: ClauseList, ren: Option<map<Lit, Lit>>, a: Partial, flags: seq<bool>, S: SatSolver.Solver,
    ghost loc: seq<nat>, ghost w: Model)
    returns (count: nat)
    requires WellFormed(c) && Acyclic(c) && NoKeyOutput(c) && IsVal(c, w)
    requires cl.Valid() && Compiles(c, [], cl.Contents(), false) && S.Valid()
    requires RenamesTo(c, ren, loc) && IsView(c, loc, |a|) && FixesPair(c, loc, a, w)
    requires FlagsKeys(c, loc, flags) && |a| <= |flags| && |a| <= S.numVars
    modifies S`numVars, S`clauses
    ensures S.Valid() && S.numVars >= old(S.numVars)
    ensures Restricts(c, loc, w, old(S.numVars), old(S.clauses), S.numVars, S.clauses)
    ensures count == |S.clauses| - |old(S.clauses)|
  {
    ghost var cs := RenameAll(cl.Contents(), ren);
    ghost var lo, before := S.numVars, S.clauses;
    RenamedBelow(c, cl.Contents(), ren, loc, |a|);
    RenameCovers(c, cl.Contents(), ren, loc);
    var outcome, rw := cl.AddRewrittenClauses(a, flags, ren, S);
    NoneEmptied(c, cl.Contents(), ren, loc, a, w);
    count := outcome.count;
    var hi := S.numVars;
    var added := RewriteAll(cs, a, flags, rw);
    forall m | |m| == lo
      ensures Extensible(m, hi, added) <==> Reproduces(c, KeyOf(c, View(m, loc)), InOf(c, w), OutOf(c, w))
    {
      ExactProjection(m, cs, a, flags, rw, hi);
      SurvivingKeys(c, cl.Contents(), ren, loc, a, flags, m, w);
      SeenKeySame(c, KeyOf(c, View(m, loc)), w);
    }
    RestrictsBy(c, loc, w, lo, before, hi, added);
  }

  lemma RenameCovers(c: Ckt, cs: seq<Clause>, ren: Option<map<Lit, Lit>>, loc: seq<nat>)
    requires OverNodes(c, cs) && RenamesTo(c, ren, loc)
    ensures ren.Some? ==> forall cl, l :: cl in cs && l in cl ==> l in ren.value
  {
  }

  /** The pair was produced by a valuation, so no clause is emptied by it. */
  lemma NoneEmptied(c: Ckt, cs: seq<Clause>, ren: Option<map<Lit, Lit>>, loc: seq<nat>, a: Partial, w: Model)
    requires WellFormed(c) && IsVal(c, w)
    requires Compiles(c, [], cs, false) && RenamesTo(c, ren, loc) && IsView(c, loc, |a|) && FixesPair(c, loc, a, w)
    ensures forall cl :: cl in RenameAll(cs, ren) ==> !FalsifiedBy(a, cl)
  {
    var n := Overlay(loc, a, [], w);
    forall i | 0 <= i < |c.nodes|
      ensures n[loc[i]] == w[i]
    {
      assert loc[i] in loc;
      if a[loc[i]].None? && w[i] {
        assert 0 <= i < |loc| && loc[i] == loc[i] && w[i];
      }
    }
    assert View(n, loc) == w;
    RenamedMeaning(c, cs, ren, loc, n);
    NoneFalsified(n, RenameAll(cs, ren), a);
  }

  // ----- when recording is exact -----

  /** Key `k` survives the pair produced by `k0` on `x`, by `SurvivingKeys`. */
  ghost predicate Survives(c: Ckt, k: seq<bool>, k0: seq<bool>, x: seq<bool>)
    requires WellFormed(c) && Acyclic(c) && Fits(c, k, x) && Fits(c, k0, x)
  {
    Outputs(c, SeenKey(c, k, Eval(c, k0, x)), x) == Outputs(c, k0, x)
  }

  /** Recording any producible pair leaves exactly the keys that reproduce it. */
  ghost predicate RecordsExactly(c: Ckt)
    requires WellFormed(c) && Acyclic(c)
  {
    forall k, k0, x :: Fits(c, k, x) && Fits(c, k0, x) ==>
      (Survives(c, k, k0, x) <==> Outputs(c, k, x) == Outputs(c, k0, x))
  }

  /**
   Recording is exact iff no output is wired straight to a key input.  Such an
   output puts the key variable among the fixed ones: it is replaced by its
   observed value and the key bit itself is never constrained.
   */
  lemma RecordsExactlyIff(c: Ckt)
    requires WellFormed(c) && Acyclic(c)
    ensures RecordsExactly(c) <==> NoKeyOutput(c)
  {
    if NoKeyOutput(c) {
      forall k, k0, x | Fits(c, k, x) && Fits(c, k0, x)
        ensures Survives(c, k, k0, x) <==> Outputs(c, k, x) == Outputs(c, k0, x)
      {
        SeenKeySame(c, k, Eval(c, k0, x));
      }
    } else {
      var o :| o in c.outputs && c.nodes[o].KeyIn?;
      var p :| 0 <= p < |c.outputs| && c.outputs[p] == o;
      assert o in c.keyInputs;
      var j :| 0 <= j < |c.keyInputs| && c.keyInputs[j] == o;
      UnseenBit(c, p, j);
    }
  }

  /** Flipping a key bit that is itself an output changes that output, yet the flipped key survives. */
  lemma UnseenBit(c: Ckt, p: nat, j: nat)
    requires WellFormed(c) && Acyclic(c) && p < |c.outputs| && j < |c.keyInputs|
    requires c.keyInputs[j] == c.outputs[p]
    ensures !RecordsExactly(c)
  {
    var k0, x := seq(|c.keyInputs|, _ => false), seq(|c.cktInputs|, _ => false);
    var k := k0[j := true];
    var w := Eval(c, k0, x);
    var v := Eval(c, k, x);
    assert SeenKey(c, k, w) == k0 by {
      assert c.outputs[p] in c.outputs;
      assert forall i :: 0 <= i < |k0| ==> KeyOf(c, w)[i] == k0[i];
    }
    assert KeyOf(c, v)[j] && !KeyOf(c, w)[j];
    assert Outputs(c, k, x)[p] && !Outputs(c, k0, x)[p];
    assert Survives(c, k, k0, x);
  }

  /** The smallest such netlist: one key input that is the only output. */
  lemma KeyOutputUnseen()
    ensures var c := Ckt([KeyIn], [], [0], [], [0]);
      WellFormed(c) && Acyclic(c) && Survives(c, [true], [false], []) &&
      Outputs(c, [true], []) != Outputs(c, [false], [])
  {
    var c := Ckt([KeyIn], [], [0], [], [0]);
    assert IsRank(c, [0]);
    var v, w := Eval(c, [true], []), Eval(c, [false], []);
    assert KeyOf(c, v)[0] && !KeyOf(c, w)[0];
    assert Outputs(c, [true], [])[0] && !Outputs(c, [false], [])[0];
    assert SeenKey(c, [true], w) == [false];
  }
}
