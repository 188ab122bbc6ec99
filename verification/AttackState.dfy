/**
 What the two solvers of the attack know after some observed pairs.

 The candidate solver's keys are the keys consistent with every pair (less any
 blocked ones); the counterexample solver relates a free key A to a key B that is
 consistent with every pair.
 */
module AttackState {
  import opened Cnf
  import opened Netlist
  import opened CktCompiler
  import opened DoubleCkt
  import opened Recording
  import opened KeySpace
  import Simulator

  /** Recorded input/output pairs. */
  type Pairs = seq<(seq<bool>, seq<bool>)>

  ghost predicate GoodCkt(c: Ckt) {
    WellFormed(c) && Acyclic(c)
  }

  ghost predicate PairsFit(c: Ckt, io: Pairs) {
    forall p :: p in io ==> |p.0| == |c.cktInputs|
  }

  ghost predicate Consistent(c: Ckt, io: Pairs, k: seq<bool>)
    requires GoodCkt(c) && PairsFit(c, io)
  {
    |k| == |c.keyInputs| && forall p :: p in io ==> Reproduces(c, k, p.0, p.1)
  }

  /** Key `k` makes the locked circuit equal the oracle on every input. */
  ghost predicate CorrectKey(c: Ckt, s: Ckt, k: seq<bool>)
    requires GoodCkt(c) && GoodCkt(s) && |s.cktInputs| == |c.cktInputs|
  {
    |k| == |c.keyInputs| && forall x :: |x| == |c.cktInputs| ==> Outputs(c, k, x) == Simulator.Oracle(s, x)
  }

  function CandLoc(n: nat): (loc: seq<nat>)
    ensures |loc| == n
  {
    seq(n, i requires 0 <= i < n => i + 1)
  }

  function CexLoc(pm: PairMap): (loc: seq<nat>)
    ensures |loc| == |pm|
  {
    seq(|pm|, i requires 0 <= i < |pm| => pm[i].1 + 1)
  }

  ghost predicate CandSound(c: Ckt, io: Pairs, blocked: set<seq<bool>>, m: Model)
    requires GoodCkt(c) && PairsFit(c, io)
  {
    && IsVal(c, NodeBits(c, m)) && Consistent(c, io, KeyOf(c, NodeBits(c, m)))
    && KeyOf(c, NodeBits(c, m)) !in blocked
  }

  ghost predicate CandModel(c: Ckt, n: nat, cs: seq<Clause>, k: seq<bool>, x: seq<bool>, m: Model) {
    |m| == n && Sat(m, cs) && KeyOf(c, NodeBits(c, m)) == k && InOf(c, NodeBits(c, m)) == x
  }

  ghost predicate CandKnows(c: Ckt, io: Pairs, blocked: set<seq<bool>>, n: nat, cs: seq<Clause>)
    requires GoodCkt(c) && PairsFit(c, io)
  {
    && n >= |c.nodes| + 2 && Below(cs, n)
    && (forall m :: |m| == n && Sat(m, cs) ==> CandSound(c, io, blocked, m))
    && (forall k, x :: Fits(c, k, x) && Consistent(c, io, k) && k !in blocked ==>
          exists m :: CandModel(c, n, cs, k, x, m))
  }

  ghost predicate CexModel(
    c: Ckt, pm: PairMap, d: Ckt, n: nat, cs: seq<Clause>, kA: seq<bool>, kB: seq<bool>, x: seq<bool>, m: Model)
  {
    && |m| == n && Sat(m, cs)
    && KeyOf(c, Part(pm, NodeBits(d, m), false)) == kA && KeyOf(c, Part(pm, NodeBits(d, m), true)) == kB
    && InOf(c, Part(pm, NodeBits(d, m), false)) == x
  }

  ghost predicate CexKnows(c: Ckt, pm: PairMap, d: Ckt, io: Pairs, n: nat, cs: seq<Clause>)
    requires GoodCkt(c) && WellFormed(d) && PairsFit(c, io)
  {
    && n >= |d.nodes| + 2 && Below(cs, n)
    && (forall m :: |m| == n && Sat(m, cs) ==>
          IsVal(d, NodeBits(d, m)) && Consistent(c, io, KeyOf(c, Part(pm, NodeBits(d, m), true))))
    && (forall kA, kB, x :: Fits(c, kA, x) && Fits(c, kB, x) && Consistent(c, io, kB) ==>
          exists m :: CexModel(c, pm, d, n, cs, kA, kB, x, m))
  }

  // ----- initial states -----

  lemma CandInitially(c: Ckt, cs: seq<Clause>)
    requires GoodCkt(c) && Compiles(c, [], cs, false) && Below(cs, |c.nodes| + 2)
    ensures CandKnows(c, [], {}, |c.nodes| + 2, cs)
  {
    forall m | |m| == |c.nodes| + 2 && Sat(m, cs)
      ensures CandSound(c, [], {}, m)
    {
      KeptHoldAll(c, NodeBits(c, m));
    }
    var n := |c.nodes| + 2;
    forall k, x | Fits(c, k, x)
      ensures exists m :: CandModel(c, n, cs, k, x, m)
    {
      CompiledExactlyOneModel(c, cs, k, x);
      assert CandModel(c, n, cs, k, x, ModelOf(c, Eval(c, k, x)));
    }
  }

  lemma CexInitially(c: Ckt, pm: PairMap, d: Ckt, base: nat, cs: seq<Clause>)
    requires GoodCkt(c) && WellFormed(d) && IsDouble(c, pm, d, base)
    requires Compiles(d, [], cs, false) && Below(cs, |d.nodes| + 2)
    ensures CexKnows(c, pm, d, [], |d.nodes| + 2, cs)
  {
    hide IsDouble, IsVal, Part, KeyOf, CexModel, WellFormed, NodeBits, KeptHold;
    forall m | |m| == |d.nodes| + 2 && Sat(m, cs)
      ensures IsVal(d, NodeBits(d, m)) && Consistent(c, [], KeyOf(c, Part(pm, NodeBits(d, m), true)))
    {
      KeptHoldAll(d, NodeBits(d, m));
    }
    var n := |d.nodes| + 2;
    forall kA, kB, x | Fits(c, kA, x) && Fits(c, kB, x)
      ensures exists m :: CexModel(c, pm, d, n, cs, kA, kB, x, m)
    {
      var m := CexInitialModel(c, pm, d, base, cs, kA, kB, x);
    }
  }

  lemma CexInitialModel(
    c: Ckt, pm: PairMap, d: Ckt, base: nat, cs: seq<Clause>, kA: seq<bool>, kB: seq<bool>, x: seq<bool>)
    returns (m: Model)
    requires GoodCkt(c) && WellFormed(d) && IsDouble(c, pm, d, base) && Fits(c, kA, x) && Fits(c, kB, x)
    requires Compiles(d, [], cs, false)
    ensures CexModel(c, pm, d, |d.nodes| + 2, cs, kA, kB, x, m)
  {
    var v := DoubleCombine(c, pm, d, base, Eval(c, kA, x), Eval(c, kB, x));
    KeptHoldAll(d, v);
    m := ModelOf(d, v);
  }

  // ----- one more pair -----

  lemma ConsistentSnoc(c: Ckt, io: Pairs, k: seq<bool>, x: seq<bool>, y: seq<bool>)
    requires GoodCkt(c) && PairsFit(c, io) && Fits(c, k, x)
    ensures PairsFit(c, io + [(x, y)])
    ensures Consistent(c, io + [(x, y)], k) <==> Consistent(c, io, k) && Reproduces(c, k, x, y)
  {
    if Consistent(c, io + [(x, y)], k) {
      assert (x, y) in io + [(x, y)];
      forall p | p in io ensures Reproduces(c, k, p.0, p.1) { assert p in io + [(x, y)]; }
    }
  }

  lemma NodeBitsPrefix(c: Ckt, m: Model, m': Model)
    requires m <= m' && |m| >= |c.nodes| + 2
    ensures NodeBits(c, m') == NodeBits(c, m)
  {
  }

  lemma CandRecords(
    c: Ckt, io: Pairs, blocked: set<seq<bool>>, w: Model, n: nat, cs: seq<Clause>, n': nat, cs': seq<Clause>)
    requires GoodCkt(c) && IsVal(c, w) && PairsFit(c, io) && CandKnows(c, io, blocked, n, cs)
    requires Restricts(c, CandLoc(|c.nodes|), w, n, cs, n', cs')
    ensures PairsFit(c, io + [(InOf(c, w), OutOf(c, w))])
    ensures CandKnows(c, io + [(InOf(c, w), OutOf(c, w))], blocked, n', cs')
  {
    var x, y := InOf(c, w), OutOf(c, w);
    var io' := io + [(x, y)];
    assert PairsFit(c, io');
    forall m' | |m'| == n' && Sat(m', cs')
      ensures CandSound(c, io', blocked, m')
    {
      var m := m'[..n];
      NodeBitsPrefix(c, m, m');
      assert View(m, CandLoc(|c.nodes|)) == NodeBits(c, m);
      ConsistentSnoc(c, io, KeyOf(c, NodeBits(c, m)), x, y);
    }
    forall k, z | Fits(c, k, z) && Consistent(c, io', k) && k !in blocked
      ensures exists m :: CandModel(c, n', cs', k, z, m)
    {
      ConsistentSnoc(c, io, k, x, y);
      var m :| CandModel(c, n, cs, k, z, m);
      assert View(m, CandLoc(|c.nodes|)) == NodeBits(c, m);
      var m' :| |m'| == n' && m <= m' && Sat(m', cs');
      NodeBitsPrefix(c, m, m');
      assert CandModel(c, n', cs', k, z, m');
    }
  }

  lemma CexView(c: Ckt, pm: PairMap, d: Ckt, base: nat, m: Model)
    requires WellFormed(c) && IsDouble(c, pm, d, base) && |m| >= |d.nodes| + 2
    ensures View(m, CexLoc(pm)) == Part(pm, NodeBits(d, m), true)
  {
    forall i | 0 <= i < |pm|
      ensures View(m, CexLoc(pm))[i] == Part(pm, NodeBits(d, m), true)[i]
    {
      assert pm[i].1 < base;
    }
  }

  lemma CexRecords(
    c: Ckt, pm: PairMap, d: Ckt, base: nat, io: Pairs, w: Model, n: nat, cs: seq<Clause>, n': nat, cs': seq<Clause>)
    requires GoodCkt(c) && WellFormed(d) && IsDouble(c, pm, d, base) && IsVal(c, w)
    requires PairsFit(c, io) && CexKnows(c, pm, d, io, n, cs)
    requires Restricts(c, CexLoc(pm), w, n, cs, n', cs')
    ensures PairsFit(c, io + [(InOf(c, w), OutOf(c, w))])
    ensures CexKnows(c, pm, d, io + [(InOf(c, w), OutOf(c, w))], n', cs')
  {
    var x, y := InOf(c, w), OutOf(c, w);
    var io' := io + [(x, y)];
    assert PairsFit(c, io');
    forall m' | |m'| == n' && Sat(m', cs')
      ensures IsVal(d, NodeBits(d, m')) && Consistent(c, io', KeyOf(c, Part(pm, NodeBits(d, m'), true)))
    {
      var m := m'[..n];
      NodeBitsPrefix(d, m, m');
      CexView(c, pm, d, base, m);
      ConsistentSnoc(c, io, KeyOf(c, Part(pm, NodeBits(d, m), true)), x, y);
    }
    forall kA, kB, z | Fits(c, kA, z) && Fits(c, kB, z) && Consistent(c, io', kB)
      ensures exists m :: CexModel(c, pm, d, n', cs', kA, kB, z, m)
    {
      ConsistentSnoc(c, io, kB, x, y);
      var m :| CexModel(c, pm, d, n, cs, kA, kB, z, m);
      CexView(c, pm, d, base, m);
      var m' :| |m'| == n' && m <= m' && Sat(m', cs');
      NodeBitsPrefix(d, m, m');
      assert CexModel(c, pm, d, n', cs', kA, kB, z, m');
    }
  }

  /** Adding a clause that excludes exactly key `k` blocks it. */
  lemma CandBlocks(c: Ckt, io: Pairs, blocked: set<seq<bool>>, n: nat, cs: seq<Clause>, k: seq<bool>, bc: Clause)
    requires GoodCkt(c) && PairsFit(c, io) && CandKnows(c, io, blocked, n, cs) && ClauseBelow(bc, n)
    requires forall m :: SatClause(m, bc) <==> KeyOf(c, NodeBits(c, m)) != k
    ensures CandKnows(c, io, blocked + {k}, n, cs + [bc])
  {
    forall m
      ensures Sat(m, cs + [bc]) <==> Sat(m, cs) && KeyOf(c, NodeBits(c, m)) != k
    {
      SatAppend(m, cs, [bc]);
      assert bc in [bc];
      assert Sat(m, [bc]) <==> SatClause(m, bc);
    }
    forall k', x | Fits(c, k', x) && Consistent(c, io, k') && k' !in blocked + {k}
      ensures exists m :: CandModel(c, n, cs + [bc], k', x, m)
    {
      var m :| CandModel(c, n, cs, k', x, m);
      assert CandModel(c, n, cs + [bc], k', x, m);
    }
  }

  // ----- progress -----

  ghost function Survivors(c: Ckt, io: Pairs): (s: set<seq<bool>>)
    requires GoodCkt(c) && PairsFit(c, io)
    ensures forall k :: k in s <==> Consistent(c, io, k)
  {
    forall k ensures k in AllKeys(|c.keyInputs|) <==> |k| == |c.keyInputs| {
      AllKeysComplete(|c.keyInputs|, k);
    }
    set k | k in AllKeys(|c.keyInputs|) && Consistent(c, io, k)
  }

  lemma SurvivorsBound(c: Ckt, io: Pairs)
    requires GoodCkt(c) && PairsFit(c, io)
    ensures |Survivors(c, io)| <= Pow2(|c.keyInputs|)
  {
    AllKeysSize(|c.keyInputs|);
    forall k | k in Survivors(c, io) ensures k in AllKeys(|c.keyInputs|) {
      AllKeysComplete(|c.keyInputs|, k);
    }
    SubsetSize(Survivors(c, io), AllKeys(|c.keyInputs|));
  }

  /** Two keys that disagree on `x` cannot both survive the pair observed there. */
  ghost predicate Distinguishes(c: Ckt, io: Pairs, x: seq<bool>)
    requires GoodCkt(c) && PairsFit(c, io) && |x| == |c.cktInputs|
  {
    exists kA, kB :: Consistent(c, io, kA) && Consistent(c, io, kB) && Outputs(c, kA, x) != Outputs(c, kB, x)
  }

  /** Recording a distinguishing input strictly shrinks the surviving keys, and no correct key is lost. */
  lemma Progress(c: Ckt, s: Ckt, io: Pairs, x: seq<bool>)
    requires GoodCkt(c) && GoodCkt(s) && |s.cktInputs| == |c.cktInputs|
    requires PairsFit(c, io) && |x| == |c.cktInputs| && Distinguishes(c, io, x)
    ensures PairsFit(c, io + [(x, Simulator.Oracle(s, x))])
    ensures Survivors(c, io + [(x, Simulator.Oracle(s, x))]) < Survivors(c, io)
    ensures |Survivors(c, io + [(x, Simulator.Oracle(s, x))])| < |Survivors(c, io)|
    ensures forall k :: CorrectKey(c, s, k) && Consistent(c, io, k) ==>
      Consistent(c, io + [(x, Simulator.Oracle(s, x))], k)
  {
    hide Outputs, Simulator.Oracle, Consistent, Reproduces, AllKeys;
    var y := Simulator.Oracle(s, x);
    var io' := io + [(x, y)];
    assert PairsFit(c, io');
    forall k | |k| == |c.keyInputs|
      ensures Consistent(c, io', k) <==> Consistent(c, io, k) && Reproduces(c, k, x, y)
    {
      ConsistentSnoc(c, io, k, x, y);
    }
    forall k
      ensures Consistent(c, io, k) || Consistent(c, io', k) ==> |k| == |c.keyInputs|
      ensures Consistent(c, io, k) && CorrectKey(c, s, k) ==> Reproduces(c, k, x, y)
    {
      ConsistentLength(c, io, k);
      ConsistentLength(c, io', k);
      if |k| == |c.keyInputs| {
        CorrectReproduces(c, s, k, x);
      }
    }
    var kA, kB :| Consistent(c, io, kA) && Consistent(c, io, kB) && Outputs(c, kA, x) != Outputs(c, kB, x);
    OnlyOneReproduces(c, kA, kB, x, y);
    var gone := if Reproduces(c, kA, x, y) then kB else kA;
    StrictSubset(Survivors(c, io'), Survivors(c, io), gone);
  }

  lemma ConsistentLength(c: Ckt, io: Pairs, k: seq<bool>)
    requires GoodCkt(c) && PairsFit(c, io)
    ensures Consistent(c, io, k) ==> |k| == |c.keyInputs|
  {
  }

  lemma CorrectReproduces(c: Ckt, s: Ckt, k: seq<bool>, x: seq<bool>)
    requires GoodCkt(c) && GoodCkt(s) && |s.cktInputs| == |c.cktInputs| == |x| && |k| == |c.keyInputs|
    ensures CorrectKey(c, s, k) ==> Reproduces(c, k, x, Simulator.Oracle(s, x))
  {
  }

  lemma OnlyOneReproduces(c: Ckt, kA: seq<bool>, kB: seq<bool>, x: seq<bool>, y: seq<bool>)
    requires GoodCkt(c) && Fits(c, kA, x) && Fits(c, kB, x) && Outputs(c, kA, x) != Outputs(c, kB, x)
    ensures !Reproduces(c, kA, x, y) || !Reproduces(c, kB, x, y)
  {
  }

  /** All surviving keys compute the oracle's function. */
  ghost predicate Settled(c: Ckt, s: Ckt, io: Pairs)
    requires GoodCkt(c) && GoodCkt(s) && |s.cktInputs| == |c.cktInputs| && PairsFit(c, io)
  {
    forall k :: Consistent(c, io, k) ==> CorrectKey(c, s, k)
  }

  /**
   If some surviving candidate key agrees with every surviving key on every
   input, and a correct key survives, then every surviving key is correct.
   */
  lemma NoDistinguisherSettles(c: Ckt, s: Ckt, io: Pairs, kA: seq<bool>, kStar: seq<bool>)
    requires GoodCkt(c) && GoodCkt(s) && |s.cktInputs| == |c.cktInputs| && PairsFit(c, io)
    requires Consistent(c, io, kA) && Consistent(c, io, kStar) && CorrectKey(c, s, kStar)
    requires forall kB, x :: Consistent(c, io, kB) && |x| == |c.cktInputs| ==> Outputs(c, kA, x) == Outputs(c, kB, x)
    ensures Settled(c, s, io)
  {
    forall k | Consistent(c, io, k)
      ensures CorrectKey(c, s, k)
    {
      forall x | |x| == |c.cktInputs|
        ensures Outputs(c, k, x) == Simulator.Oracle(s, x)
      {
        assert Outputs(c, kA, x) == Outputs(c, k, x);
        assert Outputs(c, kA, x) == Outputs(c, kStar, x);
      }
    }
  }

  /** Every recorded output is the oracle's. */
  ghost predicate FromOracle(c: Ckt, s: Ckt, io: Pairs)
    requires GoodCkt(s) && |s.cktInputs| == |c.cktInputs| && PairsFit(c, io)
  {
    forall p :: p in io ==> p.1 == Simulator.Oracle(s, p.0)
  }

  lemma CorrectIsConsistent(c: Ckt, s: Ckt, io: Pairs, k: seq<bool>)
    requires GoodCkt(c) && GoodCkt(s) && |s.cktInputs| == |c.cktInputs| && PairsFit(c, io)
    requires FromOracle(c, s, io) && CorrectKey(c, s, k)
    ensures Consistent(c, io, k)
  {
  }

  // ----- the counterexample query -----

  /** Assumptions that the outputs differ and that key A is `kA`. */
  ghost predicate QueryFor(c: Ckt, pm: PairMap, base: nat, kA: seq<bool>, assumps: seq<Lit>)
    requires |pm| == |c.nodes| && WellFormed(c)
  {
    && |kA| == |c.keyInputs| && |assumps| == |kA| + 1 && assumps[0] == MkLit(base + 1)
    && (forall i :: 0 <= i < |kA| ==>
          c.keyInputs[i] in c.keyInputs && assumps[i + 1] == LitFor(pm[c.keyInputs[i]].0 + 1, kA[i]))
  }

  lemma QueryMeaning(c: Ckt, pm: PairMap, d: Ckt, base: nat, kA: seq<bool>, assumps: seq<Lit>, m: Model)
    requires WellFormed(c) && IsDouble(c, pm, d, base) && QueryFor(c, pm, base, kA, assumps)
    ensures AllHold(m, assumps) <==>
      Bit(NodeBits(d, m), base) && KeyOf(c, Part(pm, NodeBits(d, m), false)) == kA
  {
    forall i | 0 <= i < |kA|
      ensures Holds(m, assumps[i + 1]) <==> KeyOf(c, Part(pm, NodeBits(d, m), false))[i] == kA[i]
    {
      QueryBit(c, pm, d, base, kA, assumps, m, i);
    }
    if AllHold(m, assumps) {
      assert assumps[0] in assumps;
      forall i | 0 <= i < |kA| ensures KeyOf(c, Part(pm, NodeBits(d, m), false))[i] == kA[i] {
        assert assumps[i + 1] in assumps;
      }
    }
    if Bit(NodeBits(d, m), base) && KeyOf(c, Part(pm, NodeBits(d, m), false)) == kA {
      forall l | l in assumps ensures Holds(m, l) {
        var i :| 0 <= i < |assumps| && assumps[i] == l;
        if i > 0 {
          var j := i - 1;
          assert KeyOf(c, Part(pm, NodeBits(d, m), false))[j] == kA[j];
          assert Holds(m, assumps[j + 1]);
        }
      }
    }
  }

  lemma QueryBit(c: Ckt, pm: PairMap, d: Ckt, base: nat, kA: seq<bool>, assumps: seq<Lit>, m: Model, i: nat)
    requires WellFormed(c) && IsDouble(c, pm, d, base) && QueryFor(c, pm, base, kA, assumps) && i < |kA|
    ensures Holds(m, assumps[i + 1]) <==> KeyOf(c, Part(pm, NodeBits(d, m), false))[i] == kA[i]
  {
    var n := c.keyInputs[i];
    assert n in c.keyInputs;
    assert pm[n].1 < base;
    assert NodeBits(d, m)[pm[n].0] == Bit(m, pm[n].0 + 1);
    assert Part(pm, NodeBits(d, m), false)[n] == Bit(NodeBits(d, m), pm[n].0);
  }

  /** A model of the query exhibits an input on which `kA` and some surviving key differ. */
  lemma QuerySatisfied(
    c: Ckt, pm: PairMap, d: Ckt, base: nat, io: Pairs, n: nat, cs: seq<Clause>, kA: seq<bool>, assumps: seq<Lit>,
    m: Model)
    requires GoodCkt(c) && WellFormed(d) && IsDouble(c, pm, d, base) && PairsFit(c, io)
    requires CexKnows(c, pm, d, io, n, cs) && Consistent(c, io, kA) && QueryFor(c, pm, base, kA, assumps)
    requires IsModel(m, n, cs, assumps)
    ensures Distinguishes(c, io, InOf(c, Part(pm, NodeBits(d, m), false)))
  {
    var v := NodeBits(d, m);
    var a, b := Part(pm, v, false), Part(pm, v, true);
    QueryMeaning(c, pm, d, base, kA, assumps, m);
    DoubleMeaning(c, pm, d, base, v);
    ValuationIsEval(c, a);
    ValuationIsEval(c, b);
    InputsShared(c, pm, d, base, v);
  }

  lemma InputsShared(c: Ckt, pm: PairMap, d: Ckt, base: nat, v: Model)
    requires WellFormed(c) && IsDouble(c, pm, d, base)
    ensures InOf(c, Part(pm, v, false)) == InOf(c, Part(pm, v, true))
  {
    forall j | 0 <= j < |c.cktInputs|
      ensures InOf(c, Part(pm, v, false))[j] == InOf(c, Part(pm, v, true))[j]
    {
      var n := c.cktInputs[j];
      assert n in c.cktInputs;
      assert pm[n].0 == pm[n].1;
      assert Part(pm, v, false)[n] == Bit(v, pm[n].0) && Part(pm, v, true)[n] == Bit(v, pm[n].1);
    }
  }

  /** If the query has no model, `kA` agrees with every surviving key on every input. */
  lemma QueryRefuted(
    c: Ckt, pm: PairMap, d: Ckt, base: nat, io: Pairs, n: nat, cs: seq<Clause>, kA: seq<bool>, assumps: seq<Lit>)
    requires GoodCkt(c) && WellFormed(d) && IsDouble(c, pm, d, base) && PairsFit(c, io)
    requires CexKnows(c, pm, d, io, n, cs) && QueryFor(c, pm, base, kA, assumps)
    requires forall m :: !IsModel(m, n, cs, assumps)
    ensures forall kB, x :: Consistent(c, io, kB) && |x| == |c.cktInputs| ==> Outputs(c, kA, x) == Outputs(c, kB, x)
  {
    forall kB, x | Consistent(c, io, kB) && |x| == |c.cktInputs|
      ensures Outputs(c, kA, x) == Outputs(c, kB, x)
    {
      QueryRefutedAt(c, pm, d, base, io, n, cs, kA, assumps, kB, x);
    }
  }

  lemma QueryRefutedAt(
    c: Ckt, pm: PairMap, d: Ckt, base: nat, io: Pairs, n: nat, cs: seq<Clause>, kA: seq<bool>, assumps: seq<Lit>,
    kB: seq<bool>, x: seq<bool>)
    requires GoodCkt(c) && WellFormed(d) && IsDouble(c, pm, d, base) && PairsFit(c, io)
    requires CexKnows(c, pm, d, io, n, cs) && QueryFor(c, pm, base, kA, assumps)
    requires forall m :: !IsModel(m, n, cs, assumps)
    requires Consistent(c, io, kB) && |x| == |c.cktInputs|
    ensures Outputs(c, kA, x) == Outputs(c, kB, x)
  {
    assert Fits(c, kA, x) && Fits(c, kB, x);
    var m :| CexModel(c, pm, d, n, cs, kA, kB, x, m);
    var v := NodeBits(d, m);
    var a, b := Part(pm, v, false), Part(pm, v, true);
    QueryMeaning(c, pm, d, base, kA, assumps, m);
    DoubleMeaning(c, pm, d, base, v);
    ValuationIsEval(c, a);
    ValuationIsEval(c, b);
    InputsShared(c, pm, d, base, v);
    assert !IsModel(m, n, cs, assumps);
  }

  // ----- reading a key -----

  /** Keys found, by key index. */
  type KeyMap = map<nat, bool>

  ghost predicate Holding(keys: KeyMap, k: seq<bool>) {
    forall i :: 0 <= i < |k| ==> i in keys && keys[i] == k[i]
  }

  /** The candidate solver can be asked about input `x`: it answers exactly when some unblocked key survives. */
  lemma AskedAt(
    c: Ckt, io: Pairs, blocked: set<seq<bool>>, n: nat, cs: seq<Clause>, x: seq<bool>, assumps: seq<Lit>)
    requires GoodCkt(c) && PairsFit(c, io) && CandKnows(c, io, blocked, n, cs)
    requires |x| == |c.cktInputs| == |assumps|
    requires forall j :: 0 <= j < |x| ==> assumps[j] == LitFor(c.cktInputs[j] + 1, x[j])
    ensures (exists m :: IsModel(m, n, cs, assumps)) <==> exists k :: Consistent(c, io, k) && k !in blocked
    ensures forall m :: IsModel(m, n, cs, assumps) ==>
      var k := KeyOf(c, NodeBits(c, m));
      Consistent(c, io, k) && k !in blocked && OutOf(c, NodeBits(c, m)) == Outputs(c, k, x)
  {
    forall m | IsModel(m, n, cs, assumps)
      ensures var k := KeyOf(c, NodeBits(c, m));
        Consistent(c, io, k) && k !in blocked && OutOf(c, NodeBits(c, m)) == Outputs(c, k, x)
    {
      assert CandSound(c, io, blocked, m);
      Simulator.AssumpsPlaceInputs(c, m, x, assumps);
      ValuationIsEval(c, NodeBits(c, m));
    }
    if m :| IsModel(m, n, cs, assumps) {
      var k := KeyOf(c, NodeBits(c, m));
      assert Consistent(c, io, k) && k !in blocked;
    }
    if k :| Consistent(c, io, k) && k !in blocked {
      assert Fits(c, k, x);
      var m :| CandModel(c, n, cs, k, x, m);
      Simulator.AssumpsPlaceInputs(c, m, x, assumps);
      assert IsModel(m, n, cs, assumps);
    }
  }

  /** The blocking clause holds exactly for the other keys. */
  lemma BlockingClause(c: Ckt, k: seq<bool>, bc: Clause, m: Model)
    requires WellFormed(c) && |k| == |c.keyInputs| == |bc|
    requires forall i :: 0 <= i < |k| ==> bc[i] == LitFor(c.keyInputs[i] + 1, !k[i])
    ensures SatClause(m, bc) <==> KeyOf(c, NodeBits(c, m)) != k
  {
    forall i | 0 <= i < |k|
      ensures Holds(m, bc[i]) <==> KeyOf(c, NodeBits(c, m))[i] != k[i]
    {
      assert c.keyInputs[i] in c.keyInputs;
    }
    if KeyOf(c, NodeBits(c, m)) != k {
      var i :| 0 <= i < |k| && KeyOf(c, NodeBits(c, m))[i] != k[i];
      assert bc[i] in bc;
    }
  }
}
