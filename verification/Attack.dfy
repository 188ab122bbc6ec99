/**
 `solver_t`: the oracle-guided attack.  A candidate solver proposes a key that is
 consistent with all observed pairs, a second solver over the doubled netlist
 looks for an input on which some other consistent key differs from it, and the
 oracle's answer on that input is recorded in both.
 */
module Attack {
  import opened Cnf
  import opened Netlist
  import opened CktCompiler
  import opened DoubleCkt
  import opened Rewriting
  import opened ClauseLists
  import opened Recording
  import opened KeySpace
  import opened AttackState
  import SatSolver
  import Simulator

  ghost predicate NoneAdded(c: Ckt) {
    forall i :: 0 <= i < |c.nodes| && c.nodes[i].Gate? ==> !c.nodes[i].added
  }

  /** What the attack is given: a locked netlist and an oracle with the same interface. */
  ghost predicate Attackable(c: Ckt, s: Ckt) {
    && GoodCkt(c) && GoodCkt(s) && Compilable(c) && Compilable(s)
    && |s.cktInputs| == |c.cktInputs| && |s.outputs| == |c.outputs| >= 1
    && OrderedInputs(c) && NoneAdded(c)
  }

  lemma KeepsAll(c: Ckt, cs: seq<Clause>)
    requires WellFormed(c) && NoneAdded(c) && Compiles(c, [], cs, true)
    ensures Compiles(c, [], cs, false)
  {
    forall m
      ensures KeptHold(c, NodeBits(c, m), true) <==> KeptHold(c, NodeBits(c, m), false)
    {
      assert forall i :: 0 <= i < |c.nodes| ==> Kept(c, true, i) == Kept(c, false, i);
    }
  }

  /** `init_keyinput_map`: marks the variables of key inputs. */
  method InitKeyInputMap(c: Ckt, size: nat) returns (flags: seq<bool>)
    requires WellFormed(c) && size >= |c.nodes| + 2
    ensures |flags| == size
    ensures forall i :: 0 <= i < |c.nodes| ==> flags[i + 1] == c.nodes[i].KeyIn?
    ensures forall v :: 0 <= v < size && !(1 <= v <= |c.nodes|) ==> !flags[v]
  {
    flags := seq(size, _ => false);
    for i := 0 to |c.nodes|
      invariant |flags| == size
      invariant forall k :: 0 <= k < i ==> flags[k + 1] == c.nodes[k].KeyIn?
      invariant forall v :: 0 <= v < size && !(1 <= v <= i) ==> !flags[v]
    {
      flags := flags[i + 1 := c.nodes[i].KeyIn?];
    }
  }

  /** `Scand_to_Scex_map`: a node's candidate literal to the literal of its B copy. */
  method InitRenameMap(pm: PairMap) returns (ren: map<Lit, Lit>)
    ensures forall l: Lit :: l in ren <==> 1 <= l.v <= |pm|
    ensures forall l: Lit :: l in ren ==> ren[l] == Lit(pm[l.v - 1].1 + 1, l.neg)
  {
    ren := map[];
    for i := 0 to |pm|
      invariant forall l: Lit :: l in ren <==> 1 <= l.v <= i
      invariant forall l: Lit :: l in ren ==> ren[l] == Lit(pm[l.v - 1].1 + 1, l.neg)
    {
      var candLit, cexLit := MkLit(i + 1), MkLit(pm[i].1 + 1);
      forall l: Lit | l.v == i + 1
        ensures l == candLit || l == Neg(candLit)
      {
      }
      ren := ren[candLit := cexLit][Neg(candLit) := Neg(cexLit)];
    }
  }

  lemma NoRename(c: Ckt)
    ensures RenamesTo(c, None, CandLoc(|c.nodes|))
  {
  }

  lemma RenameMapOk(c: Ckt, pm: PairMap, ren: map<Lit, Lit>)
    requires |pm| == |c.nodes|
    requires forall l: Lit :: l in ren <==> 1 <= l.v <= |pm|
    requires forall l: Lit :: l in ren ==> ren[l] == Lit(pm[l.v - 1].1 + 1, l.neg)
    ensures RenamesTo(c, Some(ren), CexLoc(pm))
  {
  }

  // ----- fixing the observed values -----

  /** The nodes of `done` are fixed to their value in `w`, the others are free. */
  ghost predicate FixedSoFar(c: Ckt, loc: seq<nat>, a: Partial, w: Model, done: seq<nat>)
    requires IsView(c, loc, |a|) && |w| == |c.nodes|
  {
    forall i :: 0 <= i < |c.nodes| ==> a[loc[i]] == if i in done then Some(w[i]) else None
  }

  lemma FixStep(c: Ckt, loc: seq<nat>, a: Partial, w: Model, done: seq<nat>, i: nat)
    requires IsView(c, loc, |a|) && |w| == |c.nodes| && i < |c.nodes| && FixedSoFar(c, loc, a, w, done)
    ensures FixedSoFar(c, loc, a[loc[i] := Some(w[i])], w, done + [i])
  {
    forall k | 0 <= k < |c.nodes| && k != i
      ensures loc[k] != loc[i]
    {
      assert if k < i then loc[k] != loc[i] else loc[i] != loc[k];
    }
  }

  /** Writing a variable that no other node of the view uses. */
  lemma FixAside(c: Ckt, loc: seq<nat>, a: Partial, w: Model, done: seq<nat>, i: nat, u: nat)
    requires IsView(c, loc, |a|) && |w| == |c.nodes| && i in done && i < |c.nodes| && u < |a|
    requires FixedSoFar(c, loc, a, w, done)
    requires forall k :: 0 <= k < |c.nodes| && loc[k] == u ==> k == i
    ensures FixedSoFar(c, loc, a[u := Some(w[i])], w, done)
  {
  }

  lemma CandLocView(c: Ckt)
    ensures IsView(c, CandLoc(|c.nodes|), |c.nodes| + 2)
  {
  }

  lemma CexLocView(c: Ckt, pm: PairMap, d: Ckt, base: nat)
    requires WellFormed(c) && IsDouble(c, pm, d, base)
    ensures IsView(c, CexLoc(pm), |d.nodes| + 2)
  {
    forall i, j | 0 <= i < j < |pm|
      ensures CexLoc(pm)[i] != CexLoc(pm)[j]
    {
      assert pm[i].1 < pm[j].0 <= pm[j].1;
    }
    forall i | 0 <= i < |pm| ensures CexLoc(pm)[i] < |d.nodes| + 2 {
      assert pm[i].1 < base;
    }
  }

  /** The two arrays of known values for one pair: `values` over the doubled netlist, `cand` over the original. */
  method FixValues(
    c: Ckt, pm: PairMap, d: Ckt, ghost base: nat, lm: seq<Lit>, clm: seq<Lit>, x: seq<bool>, y: seq<bool>,
    ghost w: Model)
    returns (values: Partial, cand: Partial)
    requires WellFormed(c) && IsDouble(c, pm, d, base) && IsVal(c, w) && InOf(c, w) == x && OutOf(c, w) == y
    requires |d.cktInputs| == |c.cktInputs| &&
      forall j :: 0 <= j < |c.cktInputs| ==> c.cktInputs[j] < |pm| && d.cktInputs[j] == pm[c.cktInputs[j]].0
    requires |lm| == |d.nodes| && forall i :: 0 <= i < |lm| ==> lm[i] == MkLit(i + 1)
    requires |clm| == |c.nodes| && forall i :: 0 <= i < |clm| ==> clm[i] == MkLit(i + 1)
    ensures |values| == |d.nodes| + 2 && |cand| == |c.nodes| + 2
    ensures IsView(c, CexLoc(pm), |values|) && FixesPair(c, CexLoc(pm), values, w)
    ensures IsView(c, CandLoc(|c.nodes|), |cand|) && FixesPair(c, CandLoc(|c.nodes|), cand, w)
  {
    ghost var cex, cnd := CexLoc(pm), CandLoc(|c.nodes|);
    CexLocView(c, pm, d, base);
    CandLocView(c);
    values := seq(|d.nodes| + 2, _ => None);
    cand := seq(|c.nodes| + 2, _ => None);
    FixStart(c, cex, values, w);
    FixStart(c, cnd, cand, w);
    hide WellFormed, IsDouble, IsVal, FixedSoFar, FixesPair, InOf, OutOf, IsView;
    values, cand := FixInputs(c, pm, d, base, lm, clm, x, values, cand, w);
    values, cand := FixOutputs(c, pm, d, base, lm, clm, y, values, cand, w);
    FixEnd(c, cex, values, w);
    FixEnd(c, cnd, cand, w);
  }

  method FixInputs(
    c: Ckt, pm: PairMap, d: Ckt, ghost base: nat, lm: seq<Lit>, clm: seq<Lit>, x: seq<bool>,
    values0: Partial, cand0: Partial, ghost w: Model)
    returns (values: Partial, cand: Partial)
    requires WellFormed(c) && IsDouble(c, pm, d, base) && IsVal(c, w) && InOf(c, w) == x
    requires |d.cktInputs| == |c.cktInputs| &&
      forall j :: 0 <= j < |c.cktInputs| ==> c.cktInputs[j] < |pm| && d.cktInputs[j] == pm[c.cktInputs[j]].0
    requires |lm| == |d.nodes| && forall i :: 0 <= i < |lm| ==> lm[i] == MkLit(i + 1)
    requires |clm| == |c.nodes| && forall i :: 0 <= i < |clm| ==> clm[i] == MkLit(i + 1)
    requires |w| == |c.nodes| == |pm| && |values0| == |d.nodes| + 2 && |cand0| == |c.nodes| + 2
    requires IsView(c, CexLoc(pm), |values0|) && FixedSoFar(c, CexLoc(pm), values0, w, c.cktInputs[..0])
    requires IsView(c, CandLoc(|c.nodes|), |cand0|) && FixedSoFar(c, CandLoc(|c.nodes|), cand0, w, c.cktInputs[..0])
    ensures |values| == |d.nodes| + 2 && FixedSoFar(c, CexLoc(pm), values, w, c.cktInputs)
    ensures |cand| == |c.nodes| + 2 && FixedSoFar(c, CandLoc(|c.nodes|), cand, w, c.cktInputs)
  {
    hide WellFormed, IsDouble, IsVal, FixedSoFar, InOf, IsView;
    ghost var cex, cnd := CexLoc(pm), CandLoc(|c.nodes|);
    values, cand := values0, cand0;
    var i := 0;
    while i != |x|
      invariant 0 <= i <= |x| && |values| == |d.nodes| + 2 && |cand| == |c.nodes| + 2
      invariant FixedSoFar(c, cex, values, w, c.cktInputs[..i])
      invariant FixedSoFar(c, cnd, cand, w, c.cktInputs[..i])
    {
      ghost var n := c.cktInputs[i];
      InputPlace(c, pm, d, base, w, i);
      FixStep(c, cex, values, w, c.cktInputs[..i], n);
      FixStep(c, cnd, cand, w, c.cktInputs[..i], n);
      assert c.cktInputs[..i + 1] == c.cktInputs[..i] + [n];
      values := values[lm[d.cktInputs[i]].v := Some(x[i])];
      cand := cand[clm[c.cktInputs[i]].v := Some(x[i])];
      i := i + 1;
    }
    assert c.cktInputs[..i] == c.cktInputs;
  }

  method FixOutputs(
    c: Ckt, pm: PairMap, d: Ckt, ghost base: nat, lm: seq<Lit>, clm: seq<Lit>, y: seq<bool>,
    values0: Partial, cand0: Partial, ghost w: Model)
    returns (values: Partial, cand: Partial)
    requires WellFormed(c) && IsDouble(c, pm, d, base) && IsVal(c, w) && OutOf(c, w) == y
    requires |lm| == |d.nodes| && forall i :: 0 <= i < |lm| ==> lm[i] == MkLit(i + 1)
    requires |clm| == |c.nodes| && forall i :: 0 <= i < |clm| ==> clm[i] == MkLit(i + 1)
    requires |w| == |c.nodes| == |pm| && |values0| == |d.nodes| + 2 && |cand0| == |c.nodes| + 2
    requires IsView(c, CexLoc(pm), |values0|) && FixedSoFar(c, CexLoc(pm), values0, w, c.cktInputs)
    requires IsView(c, CandLoc(|c.nodes|), |cand0|) && FixedSoFar(c, CandLoc(|c.nodes|), cand0, w, c.cktInputs)
    ensures |values| == |d.nodes| + 2 && FixedSoFar(c, CexLoc(pm), values, w, c.cktInputs + c.outputs)
    ensures |cand| == |c.nodes| + 2 && FixedSoFar(c, CandLoc(|c.nodes|), cand, w, c.cktInputs + c.outputs)
  {
    hide WellFormed, IsDouble, IsVal, FixedSoFar, OutOf, IsView;
    ghost var cex, cnd := CexLoc(pm), CandLoc(|c.nodes|);
    values, cand := values0, cand0;
    assert c.cktInputs + c.outputs[..0] == c.cktInputs;
    var i := 0;
    while i != |y|
      invariant 0 <= i <= |y| && |values| == |d.nodes| + 2 && |cand| == |c.nodes| + 2
      invariant FixedSoFar(c, cex, values, w, c.cktInputs + c.outputs[..i])
      invariant FixedSoFar(c, cnd, cand, w, c.cktInputs + c.outputs[..i])
    {
      var n := c.outputs[i];
      ghost var done := c.cktInputs + c.outputs[..i];
      OutputPlace(c, pm, d, base, w, i);
      FixStep(c, cnd, cand, w, done, n);
      FixStep(c, cex, values, w, done, n);
      assert c.cktInputs + c.outputs[..i + 1] == done + [n];
      values := values[lm[pm[n].1].v := Some(y[i])];
      FixAside(c, cex, values, w, done + [n], n, lm[pm[n].0].v);
      values := values[lm[pm[n].0].v := Some(y[i])];
      cand := cand[clm[n].v := Some(y[i])];
      i := i + 1;
    }
    assert c.outputs[..i] == c.outputs;
  }

  lemma FixStart(c: Ckt, loc: seq<nat>, a: Partial, w: Model)
    requires IsView(c, loc, |a|) && |w| == |c.nodes| && forall u :: 0 <= u < |a| ==> a[u] == None
    ensures FixedSoFar(c, loc, a, w, c.cktInputs[..0])
  {
  }

  lemma FixEnd(c: Ckt, loc: seq<nat>, a: Partial, w: Model)
    requires IsView(c, loc, |a|) && |w| == |c.nodes| && FixedSoFar(c, loc, a, w, c.cktInputs + c.outputs)
    ensures FixesPair(c, loc, a, w)
  {
    forall i | 0 <= i < |c.nodes|
      ensures Observed(c, i) <==> i in c.cktInputs + c.outputs
    {
    }
  }

  /** The same pair into both solvers, for key B of the doubled netlist and for the candidate's key. */
  method RecordBoth(
    c: Ckt, pm: PairMap, d: Ckt, ghost base: nat, cl: ClauseList, ren: map<Lit, Lit>, values: Partial, cand: Partial,
    flagsD: seq<bool>, flagsC: seq<bool>, Scex: SatSolver.Solver, Scand: SatSolver.Solver,
    ghost io: Pairs, ghost blocked: set<seq<bool>>, ghost w: Model)
    returns (cnt: nat)
    requires GoodCkt(c) && NoKeyOutput(c) && WellFormed(d) && IsDouble(c, pm, d, base) && IsVal(c, w)
    requires cl.Valid() && Compiles(c, [], cl.Contents(), false) && RenamesTo(c, Some(ren), CexLoc(pm))
    requires |values| == |flagsD| == |d.nodes| + 2 && |cand| == |flagsC| == |c.nodes| + 2
    requires IsView(c, CexLoc(pm), |values|) && FixesPair(c, CexLoc(pm), values, w) && FlagsKeys(c, CexLoc(pm), flagsD)
    requires IsView(c, CandLoc(|c.nodes|), |cand|) && FixesPair(c, CandLoc(|c.nodes|), cand, w)
    requires FlagsKeys(c, CandLoc(|c.nodes|), flagsC)
    requires Scex != Scand && Scex.Valid() && Scand.Valid() && PairsFit(c, io)
    requires Scex.numVars >= |d.nodes| + 2 && CexKnows(c, pm, d, io, Scex.numVars, Scex.clauses)
    requires Scand.numVars >= |c.nodes| + 2 && CandKnows(c, io, blocked, Scand.numVars, Scand.clauses)
    modifies Scand`numVars, Scand`clauses, Scex`numVars, Scex`clauses
    ensures Scex.Valid() && Scand.Valid() && PairsFit(c, io + [(InOf(c, w), OutOf(c, w))])
    ensures Scex.numVars >= |d.nodes| + 2 && Scand.numVars >= |c.nodes| + 2
    ensures CexKnows(c, pm, d, io + [(InOf(c, w), OutOf(c, w))], Scex.numVars, Scex.clauses)
    ensures CandKnows(c, io + [(InOf(c, w), OutOf(c, w))], blocked, Scand.numVars, Scand.clauses)
    ensures cnt == |Scex.clauses| + |Scand.clauses| - |old(Scex.clauses)| - |old(Scand.clauses)|
  {
    hide IsDouble, CandKnows, CexKnows, FlagsKeys, Compiles, NoKeyOutput, IsVal, Restricts, FixesPair, IsView,
      RenamesTo, InOf, OutOf, PairsFit, WellFormed, Acyclic;
    ghost var cexN, cexCs, candN, candCs := Scex.numVars, Scex.clauses, Scand.numVars, Scand.clauses;
    cnt := RecordPair(c, cl, Some(ren), values, flagsD, Scex, CexLoc(pm), w);
    CexRecords(c, pm, d, base, io, w, cexN, cexCs, Scex.numVars, Scex.clauses);
    NoRename(c);
    var more := RecordPair(c, cl, None, cand, flagsC, Scand, CandLoc(|c.nodes|), w);
    CandRecords(c, io, blocked, w, candN, candCs, Scand.numVars, Scand.clauses);
    cnt := cnt + more;
  }

  /** The candidate solver's answer: it has a model, and the model's key is consistent and not blocked. */
  lemma CandidateKey(
    c: Ckt, io: Pairs, blocked: set<seq<bool>>, n: nat, cs: seq<Clause>, goal: seq<bool>, result: bool, m: Model)
    returns (k: seq<bool>)
    requires GoodCkt(c) && PairsFit(c, io) && CandKnows(c, io, blocked, n, cs)
    requires Consistent(c, io, goal) && goal !in blocked
    requires result <==> exists m' :: IsModel(m', n, cs, [])
    requires result ==> IsModel(m, n, cs, [])
    ensures result && k == KeyOf(c, NodeBits(c, m)) && Consistent(c, io, k) && k !in blocked
  {
    var x := seq(|c.cktInputs|, _ => false);
    assert Fits(c, goal, x);
    var m' :| CandModel(c, n, cs, goal, x, m');
    assert IsModel(m', n, cs, []);
    k := KeyOf(c, NodeBits(c, m));
    assert CandSound(c, io, blocked, m);
  }

  /** `cex_assumptions`: the outputs differ, and key A is the candidate solver's key. */
  method CexAssumptions(
    c: Ckt, pm: PairMap, d: Ckt, ghost base: nat, lm: seq<Lit>, clm: seq<Lit>, Scand: SatSolver.Solver,
    ghost kA: seq<bool>)
    returns (assumps: seq<Lit>)
    requires WellFormed(c) && IsDouble(c, pm, d, base) && kA == KeyOf(c, NodeBits(c, Scand.model))
    requires |lm| == |d.nodes| && forall i :: 0 <= i < |lm| ==> lm[i] == MkLit(i + 1)
    requires |clm| == |c.nodes| && forall i :: 0 <= i < |clm| ==> clm[i] == MkLit(i + 1)
    ensures QueryFor(c, pm, base, kA, assumps)
  {
    assumps := [lm[d.outputs[0]]];
    for i := 0 to |c.keyInputs|
      invariant |assumps| == i + 1 && assumps[0] == MkLit(base + 1)
      invariant forall j :: 0 <= j < i ==>
        c.keyInputs[j] in c.keyInputs && assumps[j + 1] == LitFor(pm[c.keyInputs[j]].0 + 1, kA[j])
    {
      var n := c.keyInputs[i];
      assert n in c.keyInputs;
      assert pm[n].1 < base;
      var lki := Scand.ModelValue(clm[n]);
      assert lki == kA[i];
      var lit := lm[pm[n].0];
      assumps := assumps + [if lki then lit else Neg(lit)];
    }
  }

  /** The circuit inputs in the counterexample solver's model. */
  method ReadInputs(c: Ckt, pm: PairMap, d: Ckt, ghost base: nat, lm: seq<Lit>, Scex: SatSolver.Solver)
    returns (x: seq<bool>)
    requires WellFormed(c) && IsDouble(c, pm, d, base)
    requires |d.cktInputs| == |c.cktInputs| &&
      forall j :: 0 <= j < |c.cktInputs| ==> c.cktInputs[j] < |pm| && d.cktInputs[j] == pm[c.cktInputs[j]].0
    requires |lm| == |d.nodes| && forall i :: 0 <= i < |lm| ==> lm[i] == MkLit(i + 1)
    ensures x == InOf(c, Part(pm, NodeBits(d, Scex.model), false))
  {
    x := [];
    for i := 0 to |d.cktInputs|
      invariant |x| == i
      invariant forall j :: 0 <= j < i ==> x[j] == InOf(c, Part(pm, NodeBits(d, Scex.model), false))[j]
    {
      var n := c.cktInputs[i];
      assert n in c.cktInputs;
      assert pm[n].1 < base && pm[n].0 == pm[n].1;
      x := x + [Scex.ModelValue(lm[d.cktInputs[i]])];
      assert Part(pm, NodeBits(d, Scex.model), false)[n] == Bit(Scex.model, pm[n].0 + 1);
    }
  }

  lemma GoalSurvives(c: Ckt, s: Ckt, io: Pairs, goal: seq<bool>)
    requires GoodCkt(c) && GoodCkt(s) && |s.cktInputs| == |c.cktInputs| && PairsFit(c, io)
    requires FromOracle(c, s, io) && CorrectKey(c, s, goal)
    ensures |Survivors(c, io)| >= 1
  {
    CorrectIsConsistent(c, s, io, goal);
    assert goal in Survivors(c, io);
    SubsetSize({goal}, Survivors(c, io));
  }

  lemma SettledMatches(c: Ckt, s: Ckt, io: Pairs, k: seq<bool>, x: seq<bool>)
    requires GoodCkt(c) && GoodCkt(s) && |s.cktInputs| == |c.cktInputs| == |x| && PairsFit(c, io)
    requires Consistent(c, io, k)
    ensures Settled(c, s, io) ==> |k| == |c.keyInputs| && Outputs(c, k, x) == Simulator.Oracle(s, x)
  {
  }

  /** How many inputs `xs` tell their key in `ks` from the oracle. */
  ghost function Misses(c: Ckt, s: Ckt, ks: seq<seq<bool>>, xs: seq<seq<bool>>): nat
    requires GoodCkt(c) && GoodCkt(s) && |s.cktInputs| == |c.cktInputs| && |ks| == |xs|
    requires (forall k :: k in ks ==> |k| == |c.keyInputs|) && forall x :: x in xs ==> |x| == |c.cktInputs|
  {
    if ks == [] then 0
    else
      var i := |ks| - 1;
      Misses(c, s, ks[..i], xs[..i]) + if Outputs(c, ks[i], xs[i]) == Simulator.Oracle(s, xs[i]) then 0 else 1
  }

  /** After `i` inputs, for which the keys in `tried` were chosen. */
  ghost predicate Trying(
    c: Ckt, s: Ckt, io: Pairs, blocked: set<seq<bool>>, tried: seq<seq<bool>>, xs: seq<seq<bool>>, i: nat,
    failCount: int)
  {
    && GoodCkt(c) && GoodCkt(s) && |s.cktInputs| == |c.cktInputs| && PairsFit(c, io)
    && |tried| == i <= |xs| && (forall x :: x in xs ==> |x| == |c.cktInputs|)
    && (forall k :: k in tried ==> Consistent(c, io, k) && k !in blocked && |k| == |c.keyInputs|)
    && failCount == Misses(c, s, tried, xs[..i]) && (Settled(c, s, io) ==> failCount == 0)
  }

  lemma StartTrying(c: Ckt, s: Ckt, io: Pairs, blocked: set<seq<bool>>, xs: seq<seq<bool>>)
    requires GoodCkt(c) && GoodCkt(s) && |s.cktInputs| == |c.cktInputs| && PairsFit(c, io)
    requires forall x :: x in xs ==> |x| == |c.cktInputs|
    ensures Trying(c, s, io, blocked, [], xs, 0, 0)
  {
    hide GoodCkt, PairsFit, Settled;
  }

  lemma KeepTrying(
      c: Ckt, s: Ckt, io: Pairs, blocked: set<seq<bool>>, tried: seq<seq<bool>>, xs: seq<seq<bool>>, i: nat,
      failCount: int, k: seq<bool>)
    requires Trying(c, s, io, blocked, tried, xs, i, failCount) && i < |xs|
    requires Consistent(c, io, k) && k !in blocked && |k| == |c.keyInputs|
    ensures GoodCkt(c) && GoodCkt(s) && |s.cktInputs| == |c.cktInputs| && |xs[i]| == |c.cktInputs|
    ensures Trying(c, s, io, blocked, tried + [k], xs, i + 1,
        failCount + if Outputs(c, k, xs[i]) == Simulator.Oracle(s, xs[i]) then 0 else 1)
  {
    hide GoodCkt, PairsFit, Settled, Consistent, Outputs, Simulator.Oracle;
    assert xs[i] in xs;
    SettledMatches(c, s, io, k, xs[i]);
    assert (tried + [k])[..i] == tried && xs[..i + 1][..i] == xs[..i];
  }

  lemma TriedFirst(
      c: Ckt, s: Ckt, io: Pairs, blocked: set<seq<bool>>, tried: seq<seq<bool>>, xs: seq<seq<bool>>, i: nat,
      failCount: int)
    requires Trying(c, s, io, blocked, tried, xs, i, failCount) && i > 0
    ensures |tried| == i && Consistent(c, io, tried[0]) && tried[0] !in blocked
  {
    assert tried[0] in tried;
  }

  method InputAssumptions(c: Ckt, clm: seq<Lit>, x: seq<bool>) returns (assumps: seq<Lit>)
    requires WellFormed(c) && |x| == |c.cktInputs|
    requires |clm| == |c.nodes| && forall i :: 0 <= i < |clm| ==> clm[i] == MkLit(i + 1)
    ensures |assumps| == |x| && forall j :: 0 <= j < |x| ==> assumps[j] == LitFor(c.cktInputs[j] + 1, x[j])
  {
    assumps := [];
    for i := 0 to |c.cktInputs|
      invariant |assumps| == i
      invariant forall j :: 0 <= j < i ==> assumps[j] == LitFor(c.cktInputs[j] + 1, x[j])
    {
      assert c.cktInputs[i] in c.cktInputs;
      var l := clm[c.cktInputs[i]];
      assumps := assumps + [if x[i] then l else Neg(l)];
    }
  }

  /** Compares the outputs in the candidate model with the simulated ones, stopping at a difference. */
  method OutputsMatch(c: Ckt, clm: seq<Lit>, Scand: SatSolver.Solver, y: seq<bool>) returns (same: bool)
    requires WellFormed(c) && |y| == |c.outputs|
    requires |clm| == |c.nodes| && forall i :: 0 <= i < |clm| ==> clm[i] == MkLit(i + 1)
    ensures same <==> OutOf(c, NodeBits(c, Scand.model)) == y
  {
    ghost var v := NodeBits(c, Scand.model);
    for i := 0 to |c.outputs|
      invariant forall j :: 0 <= j < i ==> OutOf(c, v)[j] == y[j]
    {
      assert c.outputs[i] in c.outputs;
      assert OutOf(c, v)[i] == Bit(Scand.model, c.outputs[i] + 1);
      if Scand.ModelValue(clm[c.outputs[i]]) != y[i] {
        return false;
      }
    }
    return true;
  }

  method ExtractSolution(c: Ckt, clm: seq<Lit>, Scand: SatSolver.Solver, keys0: KeyMap) returns (keys: KeyMap)
    requires WellFormed(c)
    requires |clm| == |c.nodes| && forall i :: 0 <= i < |clm| ==> clm[i] == MkLit(i + 1)
    ensures Holding(keys, KeyOf(c, NodeBits(c, Scand.model)))
  {
    keys := keys0;
    for i := 0 to |c.keyInputs|
      invariant forall j :: 0 <= j < i ==> j in keys && keys[j] == KeyOf(c, NodeBits(c, Scand.model))[j]
    {
      assert c.keyInputs[i] in c.keyInputs;
      keys := keys[i := Scand.ModelValue(clm[c.keyInputs[i]])];
    }
  }

  /** Once settled, the correct keys are the consistent ones. */
  lemma SettledGoals(c: Ckt, s: Ckt, io: Pairs)
    requires GoodCkt(c) && GoodCkt(s) && |s.cktInputs| == |c.cktInputs| && PairsFit(c, io)
    requires FromOracle(c, s, io) && Settled(c, s, io)
    ensures forall k :: CorrectKey(c, s, k) <==> Consistent(c, io, k)
  {
    forall k | CorrectKey(c, s, k) ensures Consistent(c, io, k) {
      CorrectIsConsistent(c, s, io, k);
    }
  }

  method BlockingLits(c: Ckt, clm: seq<Lit>, keysFound: KeyMap, ghost k: seq<bool>) returns (bc: Clause)
    requires WellFormed(c) && |k| == |c.keyInputs| && Holding(keysFound, k)
    requires |clm| == |c.nodes| && forall i :: 0 <= i < |clm| ==> clm[i] == MkLit(i + 1)
    ensures |bc| == |k|
    ensures forall j :: 0 <= j < |k| ==>
      c.keyInputs[j] in c.keyInputs && bc[j] == LitFor(c.keyInputs[j] + 1, !k[j])
  {
    bc := [];
    for i := 0 to |c.keyInputs|
      invariant |bc| == i
      invariant forall j :: 0 <= j < i ==>
        c.keyInputs[j] in c.keyInputs && bc[j] == LitFor(c.keyInputs[j] + 1, !k[j])
    {
      assert c.keyInputs[i] in c.keyInputs;
      var l := clm[c.keyInputs[i]];
      bc := bc + [if keysFound[i] then Neg(l) else l];
    }
  }

  lemma BlockStep(
    c: Ckt, io: Pairs, blocked: set<seq<bool>>, n: nat, cs: seq<Clause>, k: seq<bool>, bc: Clause)
    requires GoodCkt(c) && PairsFit(c, io) && CandKnows(c, io, blocked, n, cs) && n >= |c.nodes| + 2
    requires |k| == |c.keyInputs| == |bc|
    requires forall j :: 0 <= j < |k| ==>
      c.keyInputs[j] in c.keyInputs && bc[j] == LitFor(c.keyInputs[j] + 1, !k[j])
    ensures ClauseBelow(bc, n) && CandKnows(c, io, blocked + {k}, n, cs + [bc])
  {
    forall m
      ensures SatClause(m, bc) <==> KeyOf(c, NodeBits(c, m)) != k
    {
      BlockingClause(c, k, bc, m);
    }
    CandBlocks(c, io, blocked, n, cs, k, bc);
  }

  lemma GoalValuation(c: Ckt, s: Ckt, goal: seq<bool>, x: seq<bool>) returns (w: Model)
    requires GoodCkt(c) && GoodCkt(s) && |s.cktInputs| == |c.cktInputs| == |x| && CorrectKey(c, s, goal)
    ensures IsVal(c, w) && InOf(c, w) == x && OutOf(c, w) == Simulator.Oracle(s, x)
  {
    w := Eval(c, goal, x);
    assert Outputs(c, goal, x) == Simulator.Oracle(s, x);
  }

  lemma InputPlace(c: Ckt, pm: PairMap, d: Ckt, base: nat, w: Model, i: nat)
    requires WellFormed(c) && IsDouble(c, pm, d, base) && IsVal(c, w) && i < |c.cktInputs|
    ensures c.cktInputs[i] < |c.nodes| && InOf(c, w)[i] == w[c.cktInputs[i]]
    ensures pm[c.cktInputs[i]].0 == pm[c.cktInputs[i]].1 < |d.nodes|
  {
    assert c.cktInputs[i] in c.cktInputs;
    assert pm[c.cktInputs[i]].1 < base;
  }

  lemma OutputPlace(c: Ckt, pm: PairMap, d: Ckt, base: nat, w: Model, i: nat)
    requires WellFormed(c) && IsDouble(c, pm, d, base) && IsVal(c, w) && i < |c.outputs|
    ensures c.outputs[i] < |c.nodes| && OutOf(c, w)[i] == w[c.outputs[i]]
    ensures pm[c.outputs[i]].0 < |d.nodes| && pm[c.outputs[i]].1 < |d.nodes|
    ensures forall k :: 0 <= k < |c.nodes| && CexLoc(pm)[k] == pm[c.outputs[i]].0 + 1 ==> k == c.outputs[i]
  {
    var n := c.outputs[i];
    assert n in c.outputs;
    assert pm[n].1 < base;
    OnlyOwner(c, pm, base, n);
  }

  /** No limit is exceeded in the iterations from `from` on, before `to`. */
  ghost predicate Unstopped(from: nat, to: nat, tooManyDecisions: nat -> bool, timedOut: nat -> bool) {
    forall i: nat :: from <= i < to ==> !tooManyDecisions(i) && !timedOut(i)
  }

  /** The pairs recorded in `n` iterations: the last one records none if it finds no input or too many decisions. */
  function Recorded(n: int, done: bool, stopped: bool): int {
    if done || stopped then n - 1 else n
  }

  class SatAttack {
    const ckt: Ckt
    const simckt: Ckt
    const sim: Simulator.CktEval
    const pairMap: PairMap
    const dbl: Ckt
    ghost const base: nat

    const Scand: SatSolver.Solver      // produces candidate keys
    const Scex: SatSolver.Solver       // the doubled netlist
    const cl: ClauseList               // clauses of the doubled netlist, without comparators
    const candidateCl: ClauseList      // clauses of the netlist
    const lmap: seq<Lit>
    const candidateLmap: seq<Lit>
    const renameMap: map<Lit, Lit>
    const dblKeyFlags: seq<bool>
    const cktKeyFlags: seq<bool>
    const maxVerifIter: nat

    var inputValues: seq<bool>
    var outputValues: seq<bool>
    var iovectors: Pairs
    var iter: nat
    var cubeCount: nat
    ghost var blocked: set<seq<bool>>

    /** What the constructor fixes for good. */
    ghost predicate Fixed()
      reads candidateCl
    {
      && Attackable(ckt, simckt) && sim.ckt == simckt && Scand != Scex && sim.S != Scand && sim.S != Scex
      && WellFormed(dbl) && IsDouble(ckt, pairMap, dbl, base)
      && |dbl.cktInputs| == |ckt.cktInputs|
      && (forall j :: 0 <= j < |ckt.cktInputs| ==>
            ckt.cktInputs[j] < |pairMap| && dbl.cktInputs[j] == pairMap[ckt.cktInputs[j]].0)
      && |lmap| == |dbl.nodes| && (forall i :: 0 <= i < |lmap| ==> lmap[i] == MkLit(i + 1))
      && |candidateLmap| == |ckt.nodes| && (forall i :: 0 <= i < |candidateLmap| ==> candidateLmap[i] == MkLit(i + 1))
      && candidateCl.Valid() && Compiles(ckt, [], candidateCl.Contents(), false)
      && RenamesTo(ckt, Some(renameMap), CexLoc(pairMap))
      && |dblKeyFlags| == |dbl.nodes| + 2 && FlagsKeys(ckt, CexLoc(pairMap), dblKeyFlags)
      && |cktKeyFlags| == |ckt.nodes| + 2 && FlagsKeys(ckt, CandLoc(|ckt.nodes|), cktKeyFlags)
    }

    ghost predicate Valid()
      reads this, Scand, Scex, candidateCl, sim, sim.S
    {
      && Fixed() && sim.Valid() && Scand.Valid() && Scex.Valid()
      && |inputValues| == |ckt.cktInputs|
      && Scand.numVars >= |ckt.nodes| + 2 && Scex.numVars >= |dbl.nodes| + 2
      && PairsFit(ckt, iovectors) && FromOracle(ckt, simckt, iovectors)
      && CandKnows(ckt, iovectors, blocked, Scand.numVars, Scand.clauses)
      && CexKnows(ckt, pairMap, dbl, iovectors, Scex.numVars, Scex.clauses)
    }

    constructor (c: Ckt, s: Ckt, maxVerif: nat)
      requires Attackable(c, s)
      ensures Valid() && ckt == c && simckt == s && maxVerifIter == maxVerif
      ensures fresh(Scand) && fresh(Scex) && fresh(sim) && fresh(sim.S) && fresh(candidateCl)
      ensures iovectors == [] && blocked == {} && iter == 0 && cubeCount == 0
    {
      hide IsDouble, CandKnows, CexKnows, FlagsKeys, Compiles, RenamesTo, WellFormed, Acyclic, OrderedInputs, NoneAdded,
        ClauseList.Valid, Simulator.CktEval.Valid;
      var ev := new Simulator.CktEval(s);
      ghost var b;
      var pm, d, cex, dcl, lm, flagsD := SetUpCex(c);
      b := |d.nodes| - 1 - |c.outputs|;
      var cand, ccl, clm, flagsC := SetUpCand(c);
      var ren := InitRenameMap(pm);
      RenameMapOk(c, pm, ren);
      ckt, simckt, sim, pairMap, dbl, base := c, s, ev, pm, d, b;
      Scand, Scex, cl, candidateCl, lmap, candidateLmap := cand, cex, dcl, ccl, lm, clm;
      renameMap, dblKeyFlags, cktKeyFlags, maxVerifIter := ren, flagsD, flagsC, maxVerif;
      inputValues := seq(|c.cktInputs|, _ => false);
      outputValues := seq(|c.outputs|, _ => false);
      iovectors, blocked, iter, cubeCount := [], {}, 0, 0;
    }

    /** A key that computes the oracle's function and has not been blocked. */
    ghost predicate IsGoal(k: seq<bool>)
      reads this, candidateCl
      requires Fixed()
    {
      CorrectKey(ckt, simckt, k) && k !in blocked
    }

    /** The clauses in both solvers. */
    ghost function Stored(): nat
      reads Scand, Scex
    {
      |Scand.clauses| + |Scex.clauses|
    }

    /** Asks the oracle about `inputValues` and records its answer in both solvers. */
    method RecordInputValues(ghost goal: seq<bool>)
      requires Valid() && NoKeyOutput(ckt) && CorrectKey(ckt, simckt, goal)
      modifies this`outputValues, this`iovectors, this`cubeCount, sim.S`model
      modifies Scand`numVars, Scand`clauses, Scex`numVars, Scex`clauses
      ensures Valid()
      ensures iovectors == old(iovectors) + [(inputValues, Simulator.Oracle(simckt, inputValues))]
      ensures cubeCount - old(cubeCount) == Stored() - old(Stored())
    {
      hide IsDouble, CandKnows, CexKnows, FlagsKeys, Compiles, CorrectKey, NoKeyOutput, IsVal, Restricts, FixesPair,
        IsView, RenamesTo, InOf, OutOf, WellFormed, Acyclic, PairsFit, Simulator.Oracle, OrderedInputs, NoneAdded,
        ClauseList.Valid, Simulator.CktEval.Valid;
      outputValues := sim.Eval(inputValues);
      ghost var w := GoalValuation(ckt, simckt, goal, inputValues);
      var values, candidateValues := FixValues(
        ckt, pairMap, dbl, base, lmap, candidateLmap, inputValues, outputValues, w);
      var cnt := RecordBoth(ckt, pairMap, dbl, base, candidateCl, renameMap, values, candidateValues,
        dblKeyFlags, cktKeyFlags, Scex, Scand, iovectors, blocked, w);
      cubeCount := cubeCount + cnt;
      iovectors := iovectors + [(inputValues, outputValues)];
    }

    /**
     Looks for an input on which the candidate solver's key and some key that is
     consistent with all recorded pairs differ.  The assertion that the
     candidate solver has a key holds.
     */
    method GetDistinguishingInput(ghost goal: seq<bool>) returns (found: bool)
      requires Valid() && IsGoal(goal)
      modifies this`inputValues, this`iter, Scand`model, Scex`model
      ensures Valid() && iter == old(iter) + 1
      ensures found ==> Distinguishes(ckt, iovectors, inputValues)
      ensures !found ==> Settled(ckt, simckt, iovectors)
    {
      hide IsDouble, CandKnows, CexKnows, FlagsKeys, Compiles, NoKeyOutput, RenamesTo, WellFormed, Acyclic, PairsFit,
        FromOracle, OrderedInputs, NoneAdded, ClauseList.Valid, Simulator.CktEval.Valid, CorrectKey, Consistent,
        Distinguishes, Settled, InOf, KeyOf;
      CorrectIsConsistent(ckt, simckt, iovectors, goal);
      var candResult := Scand.Solve([]);
      ghost var kA :=
        CandidateKey(ckt, iovectors, blocked, Scand.numVars, Scand.clauses, goal, candResult, Scand.model);
      var assumps := CexAssumptions(ckt, pairMap, dbl, base, lmap, candidateLmap, Scand, kA);
      var result := Scex.Solve(assumps);
      iter := iter + 1;
      if !result {
        QueryRefuted(ckt, pairMap, dbl, base, iovectors, Scex.numVars, Scex.clauses, kA, assumps);
        NoDistinguisherSettles(ckt, simckt, iovectors, kA, goal);
        return false;
      }
      QuerySatisfied(ckt, pairMap, dbl, base, iovectors, Scex.numVars, Scex.clauses, kA, assumps, Scex.model);
      inputValues := ReadInputs(ckt, pairMap, dbl, base, lmap, Scex);
      return true;
    }

    /**
     The attack loop.  `tooManyDecisions` and `timedOut` tell, per iteration
     count, whether the decision and time limits have been found exceeded: the loop gives
     up in the first iteration that finds an input although a limit is exceeded.
     `randomInputs` are the random vectors of the closing simulation.
     */
    method SolveV0(
      keysFound0: KeyMap, tooManyDecisions: nat -> bool, timedOut: nat -> bool, randomInputs: seq<seq<bool>>,
      ghost goal: seq<bool>)
      returns (done: bool, keysFound: KeyMap)
      requires Valid() && NoKeyOutput(ckt) && IsGoal(goal)
      requires forall r :: r in randomInputs ==> |r| == |ckt.cktInputs|
      modifies this`inputValues, this`outputValues, this`iovectors, this`iter, this`cubeCount, sim.S`model
      modifies Scand`numVars, Scand`clauses, Scand`model, Scex`numVars, Scex`clauses, Scex`model
      ensures Valid()
      ensures old(iter) <= iter <= old(iter) + Pow2(|ckt.keyInputs|)
      ensures done ==> Settled(ckt, simckt, iovectors)
      ensures Unstopped(old(iter) + 1, iter, tooManyDecisions, timedOut)
      ensures !done ==> iter > old(iter) && (tooManyDecisions(iter) || timedOut(iter)) && keysFound == keysFound0
      ensures |iovectors| == |old(iovectors)| + 2 + Recorded(iter - old(iter), done, tooManyDecisions(iter))
      ensures old(iovectors) <= iovectors && blocked == old(blocked)
      ensures cubeCount - old(cubeCount) == Stored() - old(Stored())
      ensures randomInputs == [] ==> keysFound == keysFound0
      ensures done && |randomInputs| > 0 ==> exists k :: IsGoal(k) && Holding(keysFound, k)
    {
      hide CandKnows, CexKnows, FlagsKeys, Compiles, RenamesTo, IsDouble, WellFormed, Acyclic, FromOracle,
        OrderedInputs, NoneAdded, NoKeyOutput, ClauseList.Valid, Simulator.CktEval.Valid, CorrectKey, Consistent,
        Settled, PairsFit, Unstopped, Recorded, Simulator.Oracle, Trying, Misses, Holding;
      keysFound := keysFound0;
      RecordConstantInputs(goal);
      done := AttackLoop(tooManyDecisions, timedOut, goal);
      if done {
        var failCount;
        ghost var tried;
        failCount, keysFound, tried := VerifySolutionSim(keysFound, randomInputs);
        SettledGoals(ckt, simckt, iovectors);
        if failCount >= 0 && |randomInputs| > 0 {
          TriedFirst(ckt, simckt, iovectors, blocked, tried, randomInputs, |randomInputs|, failCount);
          assert IsGoal(tried[0]);
        }
      }
    }

    /** The pairs of the all-zero and the all-one input, which the attack starts from. */
    method RecordConstantInputs(ghost goal: seq<bool>)
      requires Valid() && NoKeyOutput(ckt) && IsGoal(goal)
      modifies this`inputValues, this`outputValues, this`iovectors, this`cubeCount, sim.S`model
      modifies Scand`numVars, Scand`clauses, Scex`numVars, Scex`clauses
      ensures Valid()
      ensures var zeros, ones := seq(|ckt.cktInputs|, _ => false), seq(|ckt.cktInputs|, _ => true);
        iovectors == old(iovectors) + [(zeros, Simulator.Oracle(simckt, zeros)), (ones, Simulator.Oracle(simckt, ones))]
      ensures cubeCount - old(cubeCount) == Stored() - old(Stored())
    {
      hide CandKnows, CexKnows, FlagsKeys, Compiles, RenamesTo, IsDouble, WellFormed, Acyclic, FromOracle,
        OrderedInputs, NoneAdded, NoKeyOutput, ClauseList.Valid, Simulator.CktEval.Valid, CorrectKey, Consistent,
        Settled, PairsFit, Simulator.Oracle;
      inputValues := seq(|inputValues|, _ => false);
      RecordInputValues(goal);
      inputValues := seq(|inputValues|, _ => true);
      RecordInputValues(goal);
    }

    method AttackLoop(tooManyDecisions: nat -> bool, timedOut: nat -> bool, ghost goal: seq<bool>) returns (done: bool)
      requires Valid() && NoKeyOutput(ckt) && IsGoal(goal)
      modifies this`inputValues, this`outputValues, this`iovectors, this`iter, this`cubeCount, sim.S`model
      modifies Scand`numVars, Scand`clauses, Scand`model, Scex`numVars, Scex`clauses, Scex`model
      ensures Valid()
      ensures old(iter) <= iter <= old(iter) + Pow2(|ckt.keyInputs|)
      ensures done ==> Settled(ckt, simckt, iovectors)
      ensures Unstopped(old(iter) + 1, iter, tooManyDecisions, timedOut)
      ensures !done ==> iter > old(iter) && (tooManyDecisions(iter) || timedOut(iter))
      ensures |iovectors| == |old(iovectors)| + Recorded(iter - old(iter), done, tooManyDecisions(iter))
      ensures old(iovectors) <= iovectors && cubeCount - old(cubeCount) == Stored() - old(Stored())
    {
      hide CandKnows, CexKnows, FlagsKeys, Compiles, RenamesTo, IsDouble, WellFormed, Acyclic, FromOracle,
        OrderedInputs, NoneAdded, NoKeyOutput, ClauseList.Valid, Simulator.CktEval.Valid, CorrectKey, Consistent,
        Distinguishes, Settled, PairsFit;
      SurvivorsBound(ckt, iovectors);
      while true
        invariant Valid() && blocked == old(blocked)
        invariant cubeCount - old(cubeCount) == Stored() - old(Stored())
        invariant old(iter) <= iter && old(iovectors) <= iovectors
        invariant Unstopped(old(iter) + 1, iter + 1, tooManyDecisions, timedOut)
        invariant |iovectors| == |old(iovectors)| + iter - old(iter)
        invariant iter - old(iter) + |Survivors(ckt, iovectors)| <= Pow2(|ckt.keyInputs|)
        decreases |Survivors(ckt, iovectors)|
      {
        GoalSurvives(ckt, simckt, iovectors, goal);
        var diExists := GetDistinguishingInput(goal);
        if !diExists {
          return true;
        }
        if tooManyDecisions(iter) {
          return false;
        }
        Progress(ckt, simckt, iovectors, inputValues);
        RecordInputValues(goal);
        if timedOut(iter) {
          return false;
        }
      }
    }

    /** One random input: a key the candidate solver has for it, and whether its outputs are the oracle's. */
    method TryInput(x: seq<bool>) returns (sat: bool, same: bool, ghost k: seq<bool>)
      requires Valid() && |x| == |ckt.cktInputs|
      modifies Scand`model, sim.S`model
      ensures Valid()
      ensures sat <==> exists k' :: Consistent(ckt, iovectors, k') && k' !in blocked
      ensures sat ==> Consistent(ckt, iovectors, k) && k !in blocked && k == KeyOf(ckt, NodeBits(ckt, Scand.model))
      ensures sat ==> (same <==> Outputs(ckt, k, x) == Simulator.Oracle(simckt, x))
    {
      hide CexKnows, FlagsKeys, Compiles, RenamesTo, IsDouble, WellFormed, Acyclic, FromOracle, CandKnows,
        OrderedInputs, NoneAdded, NoKeyOutput, ClauseList.Valid, Simulator.CktEval.Valid, CorrectKey, Consistent,
        PairsFit, KeyOf, OutOf, IsModel;
      var expected := sim.Eval(x);
      var assumps := InputAssumptions(ckt, candidateLmap, x);
      AskedAt(ckt, iovectors, blocked, Scand.numVars, Scand.clauses, x, assumps);
      sat := Scand.Solve(assumps);
      k := KeyOf(ckt, NodeBits(ckt, Scand.model));
      same := false;
      if sat {
        same := OutputsMatch(ckt, candidateLmap, Scand, expected);
      }
    }

    /**
     Simulates random inputs with keys of the candidate solver; the first one's key is
     extracted.  `failCount` is the number of inputs on which the key tried for it and
     the oracle differ.
     */
    method VerifySolutionSim(keysFound0: KeyMap, randomInputs: seq<seq<bool>>)
      returns (failCount: int, keysFound: KeyMap, ghost tried: seq<seq<bool>>)
      requires Valid()
      requires forall r :: r in randomInputs ==> |r| == |ckt.cktInputs|
      modifies Scand`model, sim.S`model
      ensures Valid()
      ensures failCount >= -1
      ensures |randomInputs| > 0 ==>
        (failCount == -1 <==> forall k :: Consistent(ckt, iovectors, k) ==> k in blocked)
      ensures failCount >= 0 ==>
        Trying(ckt, simckt, iovectors, blocked, tried, randomInputs, |randomInputs|, failCount)
      ensures failCount >= 0 && |randomInputs| > 0 ==> |tried| > 0 && Holding(keysFound, tried[0])
      ensures randomInputs == [] ==> keysFound == keysFound0
    {
      hide CexKnows, FlagsKeys, Compiles, RenamesTo, IsDouble, WellFormed, Acyclic, FromOracle, CandKnows,
        OrderedInputs, NoneAdded, NoKeyOutput, ClauseList.Valid, Simulator.CktEval.Valid, CorrectKey, Consistent,
        Settled, PairsFit, KeyOf, Holding, Misses, Trying;
      keysFound := keysFound0;
      failCount := 0;
      tried := [];
      StartTrying(ckt, simckt, iovectors, blocked, randomInputs);
      var i := 0;
      while i < |randomInputs|
        invariant 0 <= i <= |randomInputs| && Valid() && failCount >= 0 && |tried| == i
        invariant Trying(ckt, simckt, iovectors, blocked, tried, randomInputs, i, failCount)
        invariant if i > 0 then Holding(keysFound, tried[0]) else keysFound == keysFound0
      {
        var x := randomInputs[i];
        assert x in randomInputs;
        ghost var k;
        var sat, same;
        sat, same, k := TryInput(x);
        if !sat {
          failCount := -1;
          return;
        }
        KeepTrying(ckt, simckt, iovectors, blocked, tried, randomInputs, i, failCount, k);
        if !same {
          failCount := failCount + 1;
        }
        if i == 0 {
          keysFound := ExtractSolution(ckt, candidateLmap, Scand, keysFound);
        }
        tried := tried + [k];
        i := i + 1;
      }
      if i > 0 {
        TriedFirst(ckt, simckt, iovectors, blocked, tried, randomInputs, i, failCount);
      }
    }

    /** Excludes a found key from the candidate solver. */
    method BlockKey(keysFound: KeyMap, ghost k: seq<bool>)
      requires Valid() && |k| == |ckt.keyInputs| && Holding(keysFound, k)
      modifies Scand`clauses, this`blocked
      ensures Valid() && blocked == old(blocked) + {k}
    {
      hide CandKnows, CexKnows, FlagsKeys, Compiles, RenamesTo, IsDouble, WellFormed, Acyclic, FromOracle,
        OrderedInputs, NoneAdded, NoKeyOutput, ClauseList.Valid, Simulator.CktEval.Valid, PairsFit;
      var bc := BlockingLits(ckt, candidateLmap, keysFound, k);
      BlockStep(ckt, iovectors, blocked, Scand.numVars, Scand.clauses, k, bc);
      Scand.AddClause(bc);
      blocked := blocked + {k};
    }

    /** Another key, if the candidate solver has one left. */
    method GetNewKey(randomInputs: seq<seq<bool>>) returns (ok: bool, keysFound: KeyMap)
      requires Valid() && Settled(ckt, simckt, iovectors) && |randomInputs| > 0
      requires forall r :: r in randomInputs ==> |r| == |ckt.cktInputs|
      modifies Scand`model, sim.S`model
      ensures Valid()
      ensures ok <==> exists k :: IsGoal(k)
      ensures ok ==> exists k :: IsGoal(k) && Holding(keysFound, k)
    {
      hide CandKnows, CexKnows, FlagsKeys, Compiles, RenamesTo, IsDouble, WellFormed, Acyclic, FromOracle,
        OrderedInputs, NoneAdded, NoKeyOutput, ClauseList.Valid, Simulator.CktEval.Valid, CorrectKey, Consistent,
        Settled, PairsFit;
      var failCount;
      ghost var tried;
      failCount, keysFound, tried := VerifySolutionSim(map[], randomInputs);
      ok := failCount == 0;
      SettledGoals(ckt, simckt, iovectors);
      if ok {
        ghost var k :| Consistent(ckt, iovectors, k) && k !in blocked && Holding(keysFound, k);
        assert IsGoal(k);
      } else {
        forall k ensures !IsGoal(k) {
          assert CorrectKey(ckt, simckt, k) <==> Consistent(ckt, iovectors, k);
        }
      }
    }
  }

  /** Doubles the netlist and compiles the doubled one. */
  method SetUpCex(c: Ckt)
    returns (pm: PairMap, d: Ckt, cex: SatSolver.Solver, dcl: ClauseList, lm: seq<Lit>, flags: seq<bool>)
    requires GoodCkt(c) && Compilable(c) && |c.outputs| >= 1 && OrderedInputs(c)
    ensures fresh(cex) && fresh(dcl) && cex.Valid() && WellFormed(d)
    ensures dcl.Valid() && Compiles(d, [], dcl.Contents(), true)
    ensures |d.nodes| > |c.outputs| && IsDouble(c, pm, d, |d.nodes| - 1 - |c.outputs|)
    ensures |d.cktInputs| == |c.cktInputs| &&
      forall j :: 0 <= j < |c.cktInputs| ==> c.cktInputs[j] < |pm| && d.cktInputs[j] == pm[c.cktInputs[j]].0
    ensures |lm| == |d.nodes| && forall i :: 0 <= i < |lm| ==> lm[i] == MkLit(i + 1)
    ensures |flags| == |d.nodes| + 2 && FlagsKeys(c, CexLoc(pm), flags)
    ensures cex.numVars == |d.nodes| + 2 && CexKnows(c, pm, d, [], cex.numVars, cex.clauses)
  {
    ghost var base;
    pm, d, base := BuildDouble(c);
    cex := new SatSolver.Solver();
    dcl := new ClauseList();
    DoubleCompilable(c, pm, d, base);
    lm := InitSolverAndList(d, cex, dcl, true);
    flags := InitKeyInputMap(d, cex.numVars);
    CexInitially(c, pm, d, base, cex.clauses);
    CexFlags(c, pm, d, base, flags);
  }

  method SetUpCand(c: Ckt)
    returns (cand: SatSolver.Solver, ccl: ClauseList, lm: seq<Lit>, flags: seq<bool>)
    requires GoodCkt(c) && Compilable(c) && NoneAdded(c)
    ensures fresh(cand) && fresh(ccl) && cand.Valid() && ccl.Valid() && Compiles(c, [], ccl.Contents(), false)
    ensures |lm| == |c.nodes| && forall i :: 0 <= i < |lm| ==> lm[i] == MkLit(i + 1)
    ensures |flags| == |c.nodes| + 2 && FlagsKeys(c, CandLoc(|c.nodes|), flags)
    ensures cand.numVars == |c.nodes| + 2 && CandKnows(c, [], {}, cand.numVars, cand.clauses)
  {
    cand := new SatSolver.Solver();
    ccl := new ClauseList();
    lm := InitSolverAndList(c, cand, ccl, true);
    flags := InitKeyInputMap(c, cand.numVars);
    KeepsAll(c, ccl.Contents());
    CandInitially(c, cand.clauses);
  }

  lemma CexFlags(c: Ckt, pm: PairMap, d: Ckt, base: nat, flags: seq<bool>)
    requires WellFormed(c) && WellFormed(d) && IsDouble(c, pm, d, base) && |flags| == |d.nodes| + 2
    requires forall i :: 0 <= i < |d.nodes| ==> flags[i + 1] == d.nodes[i].KeyIn?
    ensures FlagsKeys(c, CexLoc(pm), flags)
  {
    forall i | 0 <= i < |c.nodes|
      ensures Flagged(flags, CexLoc(pm)[i]) == c.nodes[i].KeyIn?
    {
      assert Side(pm[i], true) == pm[i].1 && pm[i].1 < base;
      assert CopyOf(c, pm, i, true, d.nodes[Side(pm[i], true)]);
    }
  }
}
