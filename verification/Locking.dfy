/**
 What it means that a circuit locks another: with the recorded bits on the added
 keys it has the behaviour of the other on every input, no more and no less.
 Locking composes, and every splice that restores its node's value under a key bit
 is a lock.
 */
module Locking {
  import opened Cnf
  import opened Netlist
  import opened ConstProp
  import opened Splice

  ghost predicate KeysFine(s: State) {
    forall k :: k in s.keyInputs ==> k < |s.nodes| && !s.nodes[k].Gate?
  }

  /** The keys added to `s0` have the bits `kv` in `w`. */
  ghost predicate NewKeysAre(s0: State, s: State, w: Model, kv: seq<bool>) {
    |s0.keyInputs| <= |s.keyInputs| && Vals(w, s.keyInputs[|s0.keyInputs|..]) == kv
  }

  /** Same values at the inputs and old keys of `s0`, and at the outputs. */
  ghost predicate SameIO(s0: State, w0: Model, s: State, w: Model) {
    && (forall a: nat :: a < |s0.nodes| && !s0.nodes[a].Gate? ==> Bit(w, a) == Bit(w0, a))
    && Vals(w, s.outputs) == Vals(w0, s0.outputs)
  }

  ghost predicate Extends(s0: State, s: State) {
    && |s0.nodes| <= |s.nodes| && s0.keyInputs <= s.keyInputs
    && (forall a: nat :: a < |s0.nodes| ==> (s.nodes[a].Gate? <==> s0.nodes[a].Gate?))
  }

  /** With the added keys at `kv`, `s` computes what `s0` computes, on every input. */
  ghost predicate Locks(s0: State, s: State, kv: seq<bool>) {
    Extends(s0, s) && OnlyBehaviour(s0, s, kv) && AllBehaviour(s0, s, kv)
  }

  ghost predicate OnlyBehaviour(s0: State, s: State, kv: seq<bool>) {
    forall w :: AllFit(s.nodes, w) && NewKeysAre(s0, s, w, kv) ==>
      exists w0 :: AllFit(s0.nodes, w0) && SameIO(s0, w0, s, w)
  }

  ghost predicate AllBehaviour(s0: State, s: State, kv: seq<bool>) {
    forall w0 :: AllFit(s0.nodes, w0) ==>
      exists w :: AllFit(s.nodes, w) && NewKeysAre(s0, s, w, kv) && SameIO(s0, w0, s, w)
  }

  lemma LockDown(s0: State, s: State, kv: seq<bool>, w: Model) returns (w0: Model)
    requires Locks(s0, s, kv) && AllFit(s.nodes, w) && NewKeysAre(s0, s, w, kv)
    ensures AllFit(s0.nodes, w0) && SameIO(s0, w0, s, w)
  {
    hide AllBehaviour;
    w0 :| AllFit(s0.nodes, w0) && SameIO(s0, w0, s, w);
  }

  lemma LockUp(s0: State, s: State, kv: seq<bool>, w0: Model) returns (w: Model)
    requires Locks(s0, s, kv) && AllFit(s0.nodes, w0)
    ensures AllFit(s.nodes, w) && NewKeysAre(s0, s, w, kv) && SameIO(s0, w0, s, w)
  {
    hide OnlyBehaviour;
    w :| AllFit(s.nodes, w) && NewKeysAre(s0, s, w, kv) && SameIO(s0, w0, s, w);
  }

  lemma LocksRefl(s: State)
    ensures Locks(s, s, [])
  {
    forall w | AllFit(s.nodes, w)
      ensures exists w0 :: AllFit(s.nodes, w0) && NewKeysAre(s, s, w0, []) && SameIO(s, w0, s, w)
      ensures exists w0 :: AllFit(s.nodes, w0) && NewKeysAre(s, s, w0, []) && SameIO(s, w, s, w0)
    {
      assert SameIO(s, w, s, w) && NewKeysAre(s, s, w, []);
    }
  }

  // ----- composition -----

  lemma ExtendsTrans(s0: State, s1: State, s2: State)
    requires Extends(s0, s1) && Extends(s1, s2)
    ensures Extends(s0, s2)
  {
  }

  lemma SameIOTrans(s0: State, w0: Model, s: State, w: Model, t: State, w': Model)
    requires SameIO(s0, w0, s, w) && SameIO(s, w, t, w') && Extends(s0, s)
    ensures SameIO(s0, w0, t, w')
  {
  }

  lemma KeysSplit(s0: State, s1: State, s2: State, w1: Model, w2: Model, kv1: seq<bool>, kv2: seq<bool>)
    requires KeysFine(s1) && Extends(s0, s1) && Extends(s1, s2)
    requires forall a: nat :: a < |s1.nodes| && !s1.nodes[a].Gate? ==> Bit(w2, a) == Bit(w1, a)
    requires |kv1| == |s1.keyInputs| - |s0.keyInputs|
    ensures NewKeysAre(s0, s2, w2, kv1 + kv2) <==> NewKeysAre(s0, s1, w1, kv1) && NewKeysAre(s1, s2, w2, kv2)
  {
    var old1 := s1.keyInputs[|s0.keyInputs|..];
    var new2 := s2.keyInputs[|s1.keyInputs|..];
    assert s2.keyInputs[|s0.keyInputs|..] == old1 + new2;
    forall p | 0 <= p < |old1| ensures Bit(w2, old1[p]) == Bit(w1, old1[p]) {
      assert old1[p] in s1.keyInputs;
    }
    assert Vals(w2, old1) == Vals(w1, old1);
    assert Vals(w2, old1 + new2) == Vals(w2, old1) + Vals(w2, new2);
    var all := Vals(w2, old1) + Vals(w2, new2);
    assert all[..|kv1|] == Vals(w2, old1) && all[|kv1|..] == Vals(w2, new2);
    assert (kv1 + kv2)[..|kv1|] == kv1 && (kv1 + kv2)[|kv1|..] == kv2;
  }

  /** The key bits of a lock are as many as the added keys, if the circuit has a valuation at all. */
  ghost predicate Sized(s0: State, s: State, kv: seq<bool>) {
    |s.keyInputs| == |s0.keyInputs| + |kv|
  }

  lemma NewKeysLater(s0: State, s1: State, s2: State, w2: Model, kv1: seq<bool>, kv2: seq<bool>)
    requires Extends(s0, s1) && Extends(s1, s2) && Sized(s0, s1, kv1) && NewKeysAre(s0, s2, w2, kv1 + kv2)
    ensures NewKeysAre(s1, s2, w2, kv2)
  {
    var old1 := s1.keyInputs[|s0.keyInputs|..];
    var new2 := s2.keyInputs[|s1.keyInputs|..];
    assert s2.keyInputs[|s0.keyInputs|..] == old1 + new2;
    assert Vals(w2, old1 + new2) == Vals(w2, old1) + Vals(w2, new2);
    assert (kv1 + kv2)[|kv1|..] == kv2;
  }

  lemma TransDown(s0: State, s1: State, s2: State, kv1: seq<bool>, kv2: seq<bool>, w: Model)
    requires KeysFine(s1) && Locks(s0, s1, kv1) && Locks(s1, s2, kv2) && Extends(s0, s1) && Extends(s1, s2)
    requires Sized(s0, s1, kv1) && AllFit(s2.nodes, w) && NewKeysAre(s0, s2, w, kv1 + kv2)
    ensures exists w0 :: AllFit(s0.nodes, w0) && SameIO(s0, w0, s2, w)
  {
    hide AllFit, Locks, Extends, NewKeysAre;
    NewKeysLater(s0, s1, s2, w, kv1, kv2);
    var w1 := LockDown(s1, s2, kv2, w);
    KeysSplit(s0, s1, s2, w1, w, kv1, kv2);
    var w0 := LockDown(s0, s1, kv1, w1);
    SameIOTrans(s0, w0, s1, w1, s2, w);
  }

  lemma TransUp(s0: State, s1: State, s2: State, kv1: seq<bool>, kv2: seq<bool>, w0: Model)
    requires KeysFine(s1) && Locks(s0, s1, kv1) && Locks(s1, s2, kv2) && Extends(s0, s1) && Extends(s1, s2)
    requires Sized(s0, s1, kv1) && AllFit(s0.nodes, w0)
    ensures exists w :: AllFit(s2.nodes, w) && NewKeysAre(s0, s2, w, kv1 + kv2) && SameIO(s0, w0, s2, w)
  {
    hide AllFit, Locks, Extends, NewKeysAre;
    var w1 := LockUp(s0, s1, kv1, w0);
    var w := LockUp(s1, s2, kv2, w1);
    KeysSplit(s0, s1, s2, w1, w, kv1, kv2);
    SameIOTrans(s0, w0, s1, w1, s2, w);
  }

  lemma LocksTrans(s0: State, s1: State, s2: State, kv1: seq<bool>, kv2: seq<bool>)
    requires KeysFine(s1) && Sized(s0, s1, kv1) && Locks(s0, s1, kv1) && Locks(s1, s2, kv2)
    ensures Locks(s0, s2, kv1 + kv2)
  {
    ExtendsTrans(s0, s1, s2);
    hide AllFit, SameIO, Extends, NewKeysAre, OnlyBehaviour, AllBehaviour, KeysFine;
    assert OnlyBehaviour(s0, s2, kv1 + kv2) by {
      OnlyTrans(s0, s1, s2, kv1, kv2);
    }
    assert AllBehaviour(s0, s2, kv1 + kv2) by {
      AllTrans(s0, s1, s2, kv1, kv2);
    }
  }

  lemma OnlyTrans(s0: State, s1: State, s2: State, kv1: seq<bool>, kv2: seq<bool>)
    requires KeysFine(s1) && Sized(s0, s1, kv1) && Locks(s0, s1, kv1) && Locks(s1, s2, kv2)
    ensures OnlyBehaviour(s0, s2, kv1 + kv2)
  {
    assert Extends(s0, s1) && Extends(s1, s2);
    hide AllFit, SameIO, Extends, NewKeysAre, Locks, KeysFine;
    forall w | AllFit(s2.nodes, w) && NewKeysAre(s0, s2, w, kv1 + kv2)
      ensures exists w0 :: AllFit(s0.nodes, w0) && SameIO(s0, w0, s2, w)
    {
      TransDown(s0, s1, s2, kv1, kv2, w);
    }
  }

  lemma AllTrans(s0: State, s1: State, s2: State, kv1: seq<bool>, kv2: seq<bool>)
    requires KeysFine(s1) && Sized(s0, s1, kv1) && Locks(s0, s1, kv1) && Locks(s1, s2, kv2)
    ensures AllBehaviour(s0, s2, kv1 + kv2)
  {
    assert Extends(s0, s1) && Extends(s1, s2);
    hide AllFit, SameIO, Extends, NewKeysAre, Locks, KeysFine;
    forall w0 | AllFit(s0.nodes, w0)
      ensures exists w :: AllFit(s2.nodes, w) && NewKeysAre(s0, s2, w, kv1 + kv2) && SameIO(s0, w0, s2, w)
    {
      TransUp(s0, s1, s2, kv1, kv2, w0);
    }
  }

  // ----- one splice -----

  /** `t` is `s` with a new key input and key gate spliced in behind node `n`. */
  ghost predicate Splices(s: State, t: State, n: nat, inv: bool, cells: seq<Node>) {
    && |s.fanouts| == |s.nodes| && n < |s.nodes| && Spliceable(s.nodes, s.fanouts[n], n, inv)
    && |cells| >= 2 && cells[0] == KeyIn
    && t.nodes == Spliced(s.nodes, s.fanouts[n], n, inv, |s.nodes| + 1, cells)
    && t.keyInputs == s.keyInputs + [|s.nodes|]
    && (forall o :: o in s.outputs ==> o < |s.nodes|)
    && |t.outputs| == |s.outputs|
    && (forall p :: 0 <= p < |s.outputs| ==> t.outputs[p] == if s.outputs[p] == n then |s.nodes| + 1 else s.outputs[p])
  }

  ghost predicate CellsFit(s: State, t: State, w': Model) {
    |w'| == |t.nodes| && forall h: nat :: h >= |s.nodes| && IsGate(t.nodes, h) ==> GateFits(t.nodes, w', h)
  }

  /** When the key has the bit `v`, the key gate has the old value of `n`. */
  ghost predicate GivesBack(s: State, t: State, n: nat, inv: bool, v: bool) {
    forall w' :: CellsFit(s, t, w') && Bit(w', |s.nodes|) == v ==> Bit(w', |s.nodes| + 1) == (Bit(w', n) != inv)
  }

  /** Any values of the old nodes go with values of the new ones. */
  ghost predicate CellsExist(s: State, t: State, n: nat, inv: bool, v: bool) {
    forall w: Model :: |w| == |s.nodes| ==> exists w' :: CellsFor(s, t, n, inv, v, w, w')
  }

  ghost predicate CellsFor(s: State, t: State, n: nat, inv: bool, v: bool, w: Model, w': Model) {
    CellsFit(s, t, w') && Restores(s.nodes, w, w', n, inv, |s.nodes| + 1) && Bit(w', |s.nodes|) == v
  }

  lemma OutputsMove(s: State, t: State, n: nat, inv: bool, cells: seq<Node>, w: Model, w': Model)
    requires Splices(s, t, n, inv, cells) && Restores(s.nodes, w, w', n, inv, |s.nodes| + 1)
    ensures Vals(w', t.outputs) == Vals(w, s.outputs)
  {
    forall p | 0 <= p < |s.outputs|
      ensures Bit(w', t.outputs[p]) == Bit(w, s.outputs[p])
    {
      assert s.outputs[p] in s.outputs;
    }
  }

  lemma OldGate(s: State, t: State, n: nat, inv: bool, cells: seq<Node>, w: Model, w': Model, h: nat)
    requires Splices(s, t, n, inv, cells) && Restores(s.nodes, w, w', n, inv, |s.nodes| + 1) && h < |s.nodes|
    ensures IsGate(t.nodes, h) <==> IsGate(s.nodes, h)
    ensures IsGate(s.nodes, h) ==> (GateFits(t.nodes, w', h) <==> GateFits(s.nodes, w, h))
  {
    if IsGate(s.nodes, h) {
      SpliceGate(s.nodes, s.fanouts[n], n, inv, |s.nodes| + 1, cells, w, w', h);
    }
  }

  lemma StepDown(s: State, t: State, n: nat, inv: bool, cells: seq<Node>, v: bool, w': Model) returns (w: Model)
    requires Splices(s, t, n, inv, cells) && GivesBack(s, t, n, inv, v)
    requires AllFit(t.nodes, w') && Bit(w', |s.nodes|) == v && (inv ==> IsGate(s.nodes, n))
    ensures AllFit(s.nodes, w) && SameIO(s, w, t, w')
  {
    var e: nat := |s.nodes| + 1;
    assert CellsFit(s, t, w');
    w := w'[..|s.nodes|][n := w'[e]];
    assert Restores(s.nodes, w, w', n, inv, e);
    forall h: nat | IsGate(s.nodes, h)
      ensures GateFits(s.nodes, w, h)
    {
      OldGate(s, t, n, inv, cells, w, w', h);
    }
    OutputsMove(s, t, n, inv, cells, w, w');
  }

  lemma StepUp(s: State, t: State, n: nat, inv: bool, cells: seq<Node>, v: bool, w: Model) returns (w': Model)
    requires Splices(s, t, n, inv, cells) && CellsExist(s, t, n, inv, v)
    requires AllFit(s.nodes, w) && (inv ==> IsGate(s.nodes, n))
    ensures AllFit(t.nodes, w') && Bit(w', |s.nodes|) == v && SameIO(s, w, t, w')
  {
    w' :| CellsFor(s, t, n, inv, v, w, w');
    forall h: nat | IsGate(t.nodes, h)
      ensures GateFits(t.nodes, w', h)
    {
      if h < |s.nodes| {
        OldGate(s, t, n, inv, cells, w, w', h);
      }
    }
    OutputsMove(s, t, n, inv, cells, w, w');
  }

  lemma SpliceExtends(s: State, t: State, n: nat, inv: bool, cells: seq<Node>)
    requires Splices(s, t, n, inv, cells)
    ensures Extends(s, t) && |t.keyInputs| == |s.keyInputs| + 1 && t.keyInputs[|s.keyInputs|..] == [|s.nodes|]
  {
  }

  /** A splice that restores its node's value under the key bit `v` is a lock with that bit. */
  lemma SpliceLocks(s: State, t: State, n: nat, inv: bool, cells: seq<Node>, v: bool)
    requires Splices(s, t, n, inv, cells) && GivesBack(s, t, n, inv, v) && CellsExist(s, t, n, inv, v)
    requires inv ==> IsGate(s.nodes, n)
    ensures Locks(s, t, [v])
  {
    SpliceExtends(s, t, n, inv, cells);
    forall w' | AllFit(t.nodes, w') && NewKeysAre(s, t, w', [v])
      ensures exists w :: AllFit(s.nodes, w) && SameIO(s, w, t, w')
    {
      assert Vals(w', [|s.nodes|])[0] == Bit(w', |s.nodes|);
      var w := StepDown(s, t, n, inv, cells, v, w');
    }
    forall w | AllFit(s.nodes, w)
      ensures exists w' :: AllFit(t.nodes, w') && NewKeysAre(s, t, w', [v]) && SameIO(s, w, t, w')
    {
      var w' := StepUp(s, t, n, inv, cells, v, w);
      assert Vals(w', [|s.nodes|]) == [Bit(w', |s.nodes|)];
      assert NewKeysAre(s, t, w', [v]);
    }
  }
}
