/**
 `encoder_t`: key gates inserted in place, undone exactly on backtracking, and a
 recursive search for insertions that some test does not reject.
 */
module Encoder {
  import opened Cnf
  import opened Netlist
  import opened ConstProp
  import opened Splice
  import opened Locking
  import BP = BufferPass

  /** `key_insertion_record_t`. */
  datatype Record = Record(inv: bool, key: nat, orig: nat, enc: nat, rewritten: seq<nat>)

  /** `_remove_from_array`: the last element fills the gap. */
  function RemoveFromArray(list: seq<nat>, x: nat): seq<nat>
    requires x in list
  {
    list[IndexOf(list, x) := list[|list| - 1]][..|list| - 1]
  }

  function EncGate(pol: bool, key: nat, g: nat): Node {
    Gate(if pol then Xnor else Xor, [key, g], false)
  }

  /** The circuit after `_add_key`. */
  function Added(s: State, g: nat, pol: bool): State
    requires g < |s.nodes| == |s.fanouts| == |s.isOut| && (s.isOut[g] ==> g in s.outputs)
  {
    var k := |s.nodes|;
    State(
      Spliced(s.nodes, s.fanouts[g], g, pol, k + 1, [KeyIn, EncGate(pol, k, g)]),
      s.fanouts[g := [k + 1]] + [[k + 1], s.fanouts[g]],
      s.isOut[g := false] + [false, s.isOut[g]],
      s.list + [k, k + 1], s.inputs + [k], s.keyInputs + [k], s.gates + [k + 1],
      if s.isOut[g] then ReplaceOutput(s.outputs, g, k + 1) else s.outputs)
  }

  function RecordOf(s: State, g: nat, pol: bool): Record
    requires g < |s.fanouts|
  {
    Record(pol, |s.nodes|, g, |s.nodes| + 1, s.fanouts[g])
  }

  predicate Removable(s: State, r: Record) {
    && |s.fanouts| == |s.isOut| == |s.nodes| && r.orig < r.key < |s.nodes| && r.enc == r.key + 1 == |s.nodes| - 1
    && r.key in s.keyInputs && r.key in s.inputs && r.key in s.list && r.enc in s.gates
    && r.enc in RemoveFromArray(s.list, r.key)
    && (s.isOut[r.enc] ==> r.enc in s.outputs)
  }

  /** The circuit after `_remove_key`; the two nodes that it deletes are the newest. */
  function Removed(s: State, r: Record): State
    requires Removable(s, r)
  {
    State(
      BP.Rewired(Inverted(s.nodes, r.orig, r.inv), r.rewritten, r.enc, r.orig)[..r.key],
      s.fanouts[r.orig := r.rewritten][..r.key],
      (if s.isOut[r.enc] then s.isOut[r.orig := true] else s.isOut)[..r.key],
      RemoveFromArray(RemoveFromArray(s.list, r.key), r.enc),
      RemoveFromArray(s.inputs, r.key), RemoveFromArray(s.keyInputs, r.key), RemoveFromArray(s.gates, r.enc),
      if s.isOut[r.enc] then ReplaceOutput(s.outputs, r.enc, r.orig) else s.outputs)
  }

  // ----- undo -----

  lemma {:induction false} IndexOfLast(list: seq<nat>, x: nat)
    requires x !in list
    ensures IndexOf(list + [x], x) == |list|
  {
    if list != [] {
      assert (list + [x])[1..] == list[1..] + [x];
      IndexOfLast(list[1..], x);
    }
  }

  lemma RemoveLast(list: seq<nat>, x: nat)
    requires x !in list
    ensures x in list + [x] && RemoveFromArray(list + [x], x) == list
  {
    IndexOfLast(list, x);
  }

  lemma RemoveLastButOne(list: seq<nat>, x: nat, y: nat)
    requires x !in list && y !in list && x != y
    ensures x in list + [x, y] && RemoveFromArray(list + [x, y], x) == list + [y]
  {
    IndexOfMiddle(list, x, [y]);
  }

  lemma {:induction false} IndexOfMiddle(list: seq<nat>, x: nat, tail: seq<nat>)
    requires x !in list
    ensures IndexOf(list + [x] + tail, x) == |list|
  {
    if list != [] {
      assert (list + [x] + tail)[1..] == list[1..] + [x] + tail;
      IndexOfMiddle(list[1..], x, tail);
    }
  }

  lemma {:induction false} IndexOfSubstitute(list: seq<nat>, i: nat, y: nat)
    requires i < |list| && y !in list
    ensures y in list[i := y] && IndexOf(list[i := y], y) == i
  {
    assert list[i := y][i] == y;
    if i > 0 {
      assert list[i := y][1..] == list[1..][i - 1 := y];
      assert list[0] in list;
      IndexOfSubstitute(list[1..], i - 1, y);
    }
  }

  lemma ReplaceBack(list: seq<nat>, x: nat, y: nat)
    requires x in list && y !in list
    ensures y in ReplaceOutput(list, x, y) && ReplaceOutput(ReplaceOutput(list, x, y), y, x) == list
  {
    IndexOfSubstitute(list, IndexOf(list, x), y);
  }

  ghost predicate Insertable(s: State, g: nat, pol: bool) {
    && Valid(s) && g < |s.nodes| && (s.isOut[g] <==> g in s.outputs)
    && (forall i :: i in s.inputs ==> i < |s.nodes|)
    && CanFlip(s, g, pol)
  }

  /** `invert` has a complement for the function of node `g`, if it is asked for. */
  predicate CanFlip(s: State, g: nat, pol: bool) {
    pol ==> Invertible(s.nodes, g)
  }

  /** A gate other than a multiplexer. */
  predicate Invertible(ns: seq<Node>, g: nat) {
    IsGate(ns, g) && ns[g].func != Mux
  }

  ghost predicate AllInvertible(ns: seq<Node>) {
    forall g: nat :: IsGate(ns, g) ==> Invertible(ns, g)
  }

  lemma Sizes(s: State, g: nat, pol: bool)
    requires Insertable(s, g, pol)
    ensures g < |s.nodes| == |s.fanouts| == |s.isOut| && (s.isOut[g] ==> g in s.outputs)
  {
  }

  lemma CanSplice(s: State, g: nat, pol: bool)
    requires Insertable(s, g, pol)
    ensures Spliceable(s.nodes, s.fanouts[g], g, pol)
  {
    assert MirrorAt(s.nodes, s.fanouts, g);
    var rank :| Ranked(s.nodes, rank, MaxOf(rank));
    assert !Feeds(s.nodes, g, g);
  }

  /** Removing the key just added restores every list with its order, every node, fanout and output. */
  lemma RemoveUndoesAdd(s: State, g: nat, pol: bool)
    requires Insertable(s, g, pol)
    ensures Removable(Added(s, g, pol), RecordOf(s, g, pol))
    ensures Removed(Added(s, g, pol), RecordOf(s, g, pol)) == s
  {
    hide Spliced, RemoveFromArray, ReplaceOutput, IndexOf, BP.Rewired, Inverted, MirrorAt, Orderable;
    var k := |s.nodes|;
    RemoveLastButOne(s.list, k, k + 1);
    RemoveLast(s.list, k + 1);
    RemoveLast(s.inputs, k);
    RemoveLast(s.keyInputs, k);
    RemoveLast(s.gates, k + 1);
    if s.isOut[g] {
      ReplaceBack(s.outputs, g, k + 1);
    }
    NodesRestored(s, g, pol);
    SeqRestored(s.fanouts, g, [k + 1], [[k + 1], s.fanouts[g]]);
    SeqRestored(s.isOut, g, false, [false, s.isOut[g]]);
    if !s.isOut[g] {
      assert s.isOut[g := false] == s.isOut;
    }
  }

  lemma SeqRestored<T>(a: seq<T>, g: nat, x: T, tail: seq<T>)
    requires g < |a|
    ensures (a[g := x] + tail)[g := a[g]][..|a|] == a && (a[g := x] + tail)[..|a|] == a[g := x]
  {
  }

  lemma NodesRestored(s: State, g: nat, pol: bool)
    requires Insertable(s, g, pol)
    ensures var t := Added(s, g, pol); var k: nat := |s.nodes|;
      BP.Rewired(Inverted(t.nodes, g, pol), s.fanouts[g], k + 1, g)[..k] == s.nodes
  {
    CanSplice(s, g, pol);
    var k: nat := |s.nodes|;
    SpliceBack(s.nodes, s.fanouts[g], g, pol, k + 1, [KeyIn, EncGate(pol, k, g)]);
  }

  lemma SpliceBack(ns: seq<Node>, fs: seq<nat>, g: nat, pol: bool, e: nat, cells: seq<Node>)
    requires Spliceable(ns, fs, g, pol) && |ns| <= e
    ensures BP.Rewired(Inverted(Spliced(ns, fs, g, pol, e, cells), g, pol), fs, e, g)[..|ns|] == ns
  {
    var back := BP.Rewired(Inverted(Spliced(ns, fs, g, pol, e, cells), g, pol), fs, e, g);
    forall a | 0 <= a < |ns|
      ensures back[a] == ns[a]
    {
      NodeBack(ns, fs, g, pol, e, cells, a);
    }
  }

  lemma NodeBack(ns: seq<Node>, fs: seq<nat>, g: nat, pol: bool, e: nat, cells: seq<Node>, a: nat)
    requires Spliceable(ns, fs, g, pol) && |ns| <= e && a < |ns|
    ensures BP.Rewired(Inverted(Spliced(ns, fs, g, pol, e, cells), g, pol), fs, e, g)[a] == ns[a]
  {
    if a in fs {
      assert Feeds(ns, g, a);
      forall x | x in ns[a].fanins ensures x < |ns| {
        assert Feeds(ns, x, a);
      }
      ReplaceAndBack(ns[a].fanins, g, e, |ns|);
    } else if a == g && pol {
      InvertTwice(ns[g].func);
    }
  }

  lemma InvertTwice(f: Func)
    requires f != Mux
    ensures Invert(Invert(f)) == f
  {
  }

  lemma ReplaceAndBack(ins: seq<nat>, x: nat, y: nat, size: nat)
    requires forall a :: a in ins ==> a < size <= y
    ensures BP.Replace(BP.Replace(ins, x, y), y, x) == ins
  {
    forall i | 0 <= i < |ins|
      ensures BP.Replace(BP.Replace(ins, x, y), y, x)[i] == ins[i]
    {
      assert ins[i] in ins;
    }
  }

  // ----- what an added key keeps -----

  /** Valid, with the output flags exactly on the listed outputs. */
  ghost predicate Good(s: State) {
    && Valid(s) && (forall a: nat :: a < |s.nodes| ==> (s.isOut[a] <==> a in s.outputs))
    && (forall i :: i in s.inputs ==> i < |s.nodes|)
  }

  /** Who feeds whom after a two-input gate over the new node `n` and node `g` was spliced in. */
  lemma PairFeeds(ns: seq<Node>, fs: seq<nat>, g: nat, inv: bool, f: Func, first: Node, a: nat, h: nat)
    requires Spliceable(ns, fs, g, inv) && !first.Gate?
    ensures var n: nat := |ns|;
      Feeds(Spliced(ns, fs, g, inv, n + 1, [first, Gate(f, [n, g], false)]), a, h) <==>
      if h >= n then h == n + 1 && (a == n || a == g)
      else if a == n + 1 then h in fs else a != g && Feeds(ns, a, h)
  {
    var n: nat := |ns|;
    SplicedFeeds(ns, fs, g, inv, n + 1, [first, Gate(f, [n, g], false)], a, h);
  }

  lemma RankOf(s: State) returns (rank: seq<nat>)
    requires Valid(s)
    ensures Ranked(s.nodes, rank, MaxOf(rank))
  {
    rank :| Ranked(s.nodes, rank, MaxOf(rank));
  }

  lemma AddedAcyclic(s: State, g: nat, pol: bool)
    requires Insertable(s, g, pol)
    ensures Orderable(Added(s, g, pol).nodes)
  {
    hide Valid, Spliced;
    Sizes(s, g, pol);
    CanSplice(s, g, pol);
    var rank := RankOf(s);
    PairAcyclic(s.nodes, s.fanouts[g], g, pol, if pol then Xnor else Xor, KeyIn, rank);
  }

  /** A rank for the nodes with a two-input gate over a new input and `g` spliced in behind `g`. */
  lemma PairAcyclic(ns: seq<Node>, fs: seq<nat>, g: nat, inv: bool, f: Func, first: Node, rank: seq<nat>)
    requires Spliceable(ns, fs, g, inv) && !first.Gate? && Ranked(ns, rank, MaxOf(rank))
    ensures var n: nat := |ns|; Orderable(Spliced(ns, fs, g, inv, n + 1, [first, Gate(f, [n, g], false)]))
  {
    var n: nat := |ns|;
    var t := Spliced(ns, fs, g, inv, n + 1, [first, Gate(f, [n, g], false)]);
    var rank' := seq(n, a requires 0 <= a < n => 2 * rank[a]) + [0, 2 * rank[g] + 1];
    hide Spliced;
    forall a: nat, h: nat | Feeds(t, a, h)
      ensures a < |t| && rank'[a] < rank'[h]
    {
      PairFeeds(ns, fs, g, inv, f, first, a, h);
      if h < n && a == n + 1 {
        assert Feeds(ns, g, h);
      }
    }
    assert Ranked(t, rank', MaxOf(rank'));
  }

  lemma AddedMirror(s: State, g: nat, pol: bool, a: nat)
    requires Insertable(s, g, pol) && a < |s.nodes| + 2
    ensures MirrorAt(Added(s, g, pol).nodes, Added(s, g, pol).fanouts, a)
  {
    CanSplice(s, g, pol);
    assert MirrorAt(s.nodes, s.fanouts, g);
    if a < |s.nodes| {
      assert MirrorAt(s.nodes, s.fanouts, a);
    }
    var t := Added(s, g, pol);
    forall h: nat
      ensures h in t.fanouts[a] <==> Feeds(t.nodes, a, h)
    {
      AddedFanout(s, g, pol, a, h);
    }
    if a < |s.nodes| && a != g {
      assert t.fanouts[a] == s.fanouts[a];
    }
  }

  lemma AddedParts(s: State, g: nat, pol: bool, a: nat)
    requires Insertable(s, g, pol) && a < |s.nodes| + 2
    ensures g < |s.nodes| == |s.fanouts| == |s.isOut| && (s.isOut[g] ==> g in s.outputs)
    ensures EncGate(pol, |s.nodes|, g).Gate?
    ensures var t := Added(s, g, pol); var e := |s.nodes| + 1;
      && |t.fanouts| == |s.nodes| + 2
      && t.nodes == Spliced(s.nodes, s.fanouts[g], g, pol, e, [KeyIn, EncGate(pol, |s.nodes|, g)])
      && t.fanouts[a] == if a == g || a == |s.nodes| then [e] else if a == e then s.fanouts[g] else s.fanouts[a]
  {
    hide Spliced;
  }

  lemma AddedFanout(s: State, g: nat, pol: bool, a: nat, h: nat)
    requires Insertable(s, g, pol) && a < |s.nodes| + 2 && Spliceable(s.nodes, s.fanouts[g], g, pol)
    requires a < |s.nodes| ==> MirrorAt(s.nodes, s.fanouts, a)
    ensures h in Added(s, g, pol).fanouts[a] <==> Feeds(Added(s, g, pol).nodes, a, h)
  {
    hide Valid, Spliced, MirrorAt, Added, Insertable;
    AddedParts(s, g, pol, a);
    var n: nat := |s.nodes|;
    PairFeeds(s.nodes, s.fanouts[g], g, pol, if pol then Xnor else Xor, KeyIn, a, h);
    assert Feeds(s.nodes, a, h) ==> h < n && a < n;
    assert h in s.fanouts[g] ==> Feeds(s.nodes, g, h);
    if a < n && a != g {
      FanoutAt(s.nodes, s.fanouts, a, h);
    }
  }

  lemma FanoutAt(ns: seq<Node>, fo: seq<seq<nat>>, a: nat, h: nat)
    requires a < |fo| && MirrorAt(ns, fo, a)
    ensures h in fo[a] <==> Feeds(ns, a, h)
  {
  }

  lemma AddedShapes(s: State, g: nat, pol: bool, h: nat)
    requires Insertable(s, g, pol) && Good(s)
    ensures var t := Added(s, g, pol).nodes;
      && (IsGate(t, h) ==> ArityOk(t[h].func, |t[h].fanins|))
      && (IsGate(t, h) && (IsGate(s.nodes, h) ==> Invertible(s.nodes, h)) ==> Invertible(t, h))
      && (IsGate(t, h) <==> IsGate(s.nodes, h) || h == |s.nodes| + 1)
      && (h < |s.nodes| ==> (t[h].KeyIn? <==> s.nodes[h].KeyIn?)) && t[|s.nodes|] == KeyIn
  {
    if IsGate(s.nodes, h) && h == g && pol {
      InvertArity(s.nodes[g].func, |s.nodes[g].fanins|);
    }
  }

  lemma AddedOutputs(s: State, g: nat, pol: bool)
    requires Insertable(s, g, pol) && Good(s)
    ensures var t := Added(s, g, pol);
      NoDup(t.outputs) && |t.outputs| == |s.outputs|
      && (forall o :: o in t.outputs ==> o < |t.nodes|)
      && forall a: nat :: a < |t.nodes| ==> (t.isOut[a] <==> a in t.outputs)
  {
    var t := Added(s, g, pol);
    var n := |s.nodes|;
    if s.isOut[g] {
      var i := IndexOf(s.outputs, g);
      assert forall j :: 0 <= j < |s.outputs| ==> s.outputs[j] in s.outputs;
      forall o
        ensures o in t.outputs <==> (o in s.outputs && o != g) || o == n + 1
      {
        if o in t.outputs {
          var j :| 0 <= j < |t.outputs| && t.outputs[j] == o;
          assert j != i ==> s.outputs[j] == o;
        }
        if o in s.outputs && o != g {
          var j :| 0 <= j < |s.outputs| && s.outputs[j] == o;
          assert t.outputs[j] == o;
        }
        assert t.outputs[i] == n + 1;
      }
    }
  }

  /** The new gates have complements, and so do inverted gates. */
  lemma AddedInvertible(s: State, g: nat, pol: bool)
    requires Insertable(s, g, pol) && Good(s)
    ensures AllInvertible(s.nodes) ==> AllInvertible(Added(s, g, pol).nodes)
  {
    forall h: nat
      ensures var t := Added(s, g, pol).nodes;
        IsGate(t, h) && (IsGate(s.nodes, h) ==> Invertible(s.nodes, h)) ==> Invertible(t, h)
    {
      AddedShapes(s, g, pol, h);
    }
  }

  lemma AddedGood(s: State, g: nat, pol: bool)
    requires Good(s) && g < |s.nodes| && CanFlip(s, g, pol)
    ensures Insertable(s, g, pol) && Good(Added(s, g, pol))
  {
    hide Invertible, AllInvertible, Spliced, MirrorAt, Orderable, ArityOk;
    assert s.isOut[g] <==> g in s.outputs;
    var t := Added(s, g, pol);
    AddedAcyclic(s, g, pol);
    forall a: nat | a < |t.nodes| ensures MirrorAt(t.nodes, t.fanouts, a) {
      AddedMirror(s, g, pol, a);
    }
    forall h: nat
      ensures IsGate(t.nodes, h) ==> ArityOk(t.nodes[h].func, |t.nodes[h].fanins|)
      ensures IsGate(t.nodes, h) <==> IsGate(s.nodes, h) || h == |s.nodes| + 1
      ensures h < |s.nodes| ==> (t.nodes[h].KeyIn? <==> s.nodes[h].KeyIn?)
    {
      AddedShapes(s, g, pol, h);
    }
    AddedShapes(s, g, pol, g);
    AddedOutputs(s, g, pol);
  }

  // ----- the all-zero key gives the original function -----

  lemma AddedSplices(s: State, g: nat, pol: bool)
    requires Insertable(s, g, pol)
    ensures Splices(s, Added(s, g, pol), g, pol, [KeyIn, EncGate(pol, |s.nodes|, g)])
  {
    CanSplice(s, g, pol);
    if s.isOut[g] {
      ReplacedOutputs(s.outputs, g, |s.nodes| + 1);
    }
  }

  /** The key gate with a zero key gives back the node's old value. */
  lemma EncValue(s: State, g: nat, pol: bool, w': Model)
    requires Insertable(s, g, pol) && |w'| == |s.nodes| + 2 && !Bit(w', |s.nodes|)
    ensures GateFits(Added(s, g, pol).nodes, w', |s.nodes| + 1) <==> Bit(w', |s.nodes| + 1) == (Bit(w', g) != pol)
    ensures IsGate(Added(s, g, pol).nodes, |s.nodes| + 1) && !IsGate(Added(s, g, pol).nodes, |s.nodes|)
  {
    var n: nat := |s.nodes|;
    assert Added(s, g, pol).nodes[n + 1] == EncGate(pol, n, g);
    assert Vals(w', [n, g]) == [w'[n], w'[g]];
  }

  /** The added key at zero locks the circuit. */
  lemma AddedLocks(s: State, g: nat, pol: bool)
    requires Insertable(s, g, pol)
    ensures Locks(s, Added(s, g, pol), [false])
  {
    hide Valid, Spliced, Splices;
    Sizes(s, g, pol);
    var n: nat := |s.nodes|;
    var t := Added(s, g, pol);
    AddedSplices(s, g, pol);
    forall w' | CellsFit(s, t, w') && !Bit(w', n)
      ensures Bit(w', n + 1) == (Bit(w', g) != pol)
    {
      EncValue(s, g, pol, w');
    }
    forall w: Model | |w| == n
      ensures exists w' :: CellsFor(s, t, g, pol, false, w, w')
    {
      var w' := w[g := w[g] != pol] + [false, w[g]];
      EncValue(s, g, pol, w');
      assert CellsFor(s, t, g, pol, false, w, w');
    }
    SpliceLocks(s, t, g, pol, [KeyIn, EncGate(pol, n, g)], false);
  }

  /** The key with all of `n` bits zero. */
  function ZeroKey(n: nat): (z: seq<bool>)
    ensures |z| == n
  {
    seq(n, _ => false)
  }

  /** One key added and then `n` more. */
  lemma LockMore(s: State, g: nat, pol: bool, t: State, n: nat)
    requires Insertable(s, g, pol) && Good(Added(s, g, pol)) && Locks(Added(s, g, pol), t, ZeroKey(n))
    ensures Locks(s, t, ZeroKey(n + 1))
  {
    AddedLocks(s, g, pol);
    LocksTrans(s, Added(s, g, pol), t, [false], ZeroKey(n));
    assert [false] + ZeroKey(n) == ZeroKey(n + 1);
  }

  // ----- in place -----

  /** What removing `r` makes of each part of `t`, spelled out. */
  lemma RemovedParts(t: State, r: Record, s: State)
    requires Removable(t, r) && Removed(t, r) == s
    ensures |t.fanouts| == |t.isOut| == |t.nodes| && r.orig < r.key < |t.nodes| && r.enc < |t.nodes|
    ensures r.key in t.keyInputs && r.key in t.inputs && r.key in t.list && r.enc in t.gates
    ensures r.enc in RemoveFromArray(t.list, r.key) && (t.isOut[r.enc] ==> r.enc in t.outputs)
    ensures s.nodes == BP.Rewired(Inverted(t.nodes, r.orig, r.inv), r.rewritten, r.enc, r.orig)[..r.key]
    ensures s.fanouts == t.fanouts[r.orig := r.rewritten][..r.key]
    ensures s.isOut == (if t.isOut[r.enc] then t.isOut[r.orig := true] else t.isOut)[..r.key]
    ensures s.list == RemoveFromArray(RemoveFromArray(t.list, r.key), r.enc)
    ensures s.inputs == RemoveFromArray(t.inputs, r.key) && s.keyInputs == RemoveFromArray(t.keyInputs, r.key)
    ensures s.gates == RemoveFromArray(t.gates, r.enc)
    ensures s.outputs == if t.isOut[r.enc] then ReplaceOutput(t.outputs, r.enc, r.orig) else t.outputs
  {
  }

  lemma ReadyToRemove(s: State, g: nat, pol: bool)
    requires Good(s) && g < |s.nodes| && CanFlip(s, g, pol) && (s.isOut[g] ==> g in s.outputs)
    ensures var t := Added(s, g, pol); var r := RecordOf(s, g, pol);
      && Removable(t, r) && Removed(t, r) == s && r.key == |s.nodes|
      && (r.inv ==> r.orig < |t.nodes| && t.nodes[r.orig].Gate?)
      && NoDup(r.rewritten) && forall f :: f in r.rewritten ==> Feeds(Inverted(t.nodes, r.orig, r.inv), r.enc, f)
  {
    hide Valid, MirrorAt, Orderable, ArityOk, Removed, Removable;
    AddedGood(s, g, pol);
    AddedParts(s, g, pol, g);
    AddedShapes(s, g, pol, g);
    hide Spliced, Good, Inverted, Added;
    RemoveUndoesAdd(s, g, pol);
    EncFeeds(s, g, pol);
  }

  // ----- which insertions a run may make -----

  /** `_add_key` behind node `n` may be tried: `n` is no key gate and feeds none. */
  ghost predicate Eligible(s: State, kg: seq<bool>, n: nat) {
    && n < |kg| == |s.fanouts| && n < |s.nodes| == |s.fanouts| == |s.isOut| && (s.isOut[n] ==> n in s.outputs) && !kg[n]
    && (forall f :: f in s.fanouts[n] ==> f < |kg| && !kg[f])
  }

  /** From the second key on, the test must not turn the circuit down. */
  ghost predicate Accepted(t: State, rejects: State -> bool) {
    |t.keyInputs| > 1 ==> !rejects(t)
  }

  /**
   `t` comes from `s` by accepted insertions, each behind the first eligible node where nothing was
   turned down or led to failure; the first one made is the last record.
   */
  ghost predicate Built(s: State, kg: seq<bool>, t: State, records: seq<Record>, rejects: State -> bool)
    decreases |records|
  {
    if records == [] then t == s
    else
      var r := records[|records| - 1];
      && Eligible(s, kg, r.orig) && r == RecordOf(s, r.orig, r.inv) && CanFlip(s, r.orig, r.inv)
      && ComesNext(s, kg, |records|, rejects, r.orig)
      && Accepted(Added(s, r.orig, r.inv), rejects)
      && Built(Added(s, r.orig, r.inv), kg + [false, true], t, records[..|records| - 1], rejects)
  }

  /** Behind every eligible node an insertion was turned down, or the rest could not be completed. */
  ghost predicate Stuck(s: State, kg: seq<bool>, keys: nat, rejects: State -> bool)
    decreases keys
  {
    keys > 0 && forall n :: n in s.list && Eligible(s, kg, n) ==>
      exists pol :: CanFlip(s, n, pol) && FailsAt(s, kg, keys, rejects, n, pol)
  }

  ghost predicate FailsAt(s: State, kg: seq<bool>, keys: nat, rejects: State -> bool, n: nat, pol: bool)
    requires keys > 0 && Eligible(s, kg, n)
    decreases keys, 0
  {
    !Accepted(Added(s, n, pol), rejects) || Stuck(Added(s, n, pol), kg + [false, true], keys - 1, rejects)
  }

  /** The node at this place in the list is passed over for good reason. */
  ghost predicate PassedOver(s: State, kg: seq<bool>, keys: nat, rejects: State -> bool, n: nat)
    requires keys > 0
  {
    Eligible(s, kg, n) ==> exists pol :: CanFlip(s, n, pol) && FailsAt(s, kg, keys, rejects, n, pol)
  }

  /** Round `p` of the loop passed over its node. */
  ghost predicate RoundPassed(s: State, kg: seq<bool>, keys: nat, rejects: State -> bool, start: nat, p: nat) {
    keys > 0 && p < |s.list| && PassedOver(s, kg, keys, rejects, s.list[(p + start) % |s.list|])
  }

  /** From some start among the gates on, all nodes before `n` were passed over. */
  ghost predicate ComesNext(s: State, kg: seq<bool>, keys: nat, rejects: State -> bool, n: nat) {
    exists start: nat, p: nat :: ComesAt(s, kg, keys, rejects, n, start, p)
  }

  ghost predicate ComesAt(
    s: State, kg: seq<bool>, keys: nat, rejects: State -> bool, n: nat, start: nat, p: nat) {
    && start < |s.gates| && p < |s.list| && s.list[(p + start) % |s.list|] == n
    && forall q :: 0 <= q < p ==> RoundPassed(s, kg, keys, rejects, start, q)
  }

  /** A gate without complement comes next, at once or after accepted insertions. */
  ghost predicate Stops(s: State, kg: seq<bool>, keys: nat, rejects: State -> bool)
    decreases keys
  {
    keys > 0 &&
    exists n :: Eligible(s, kg, n) && ComesNext(s, kg, keys, rejects, n) && StopsAt(s, kg, keys, rejects, n)
  }

  ghost predicate StopsAt(s: State, kg: seq<bool>, keys: nat, rejects: State -> bool, n: nat)
    requires keys > 0 && Eligible(s, kg, n)
    decreases keys, 0
  {
    || (IsGate(s.nodes, n) && !Invertible(s.nodes, n))
    || exists pol :: CanFlip(s, n, pol) && Accepted(Added(s, n, pol), rejects) &&
         Stops(Added(s, n, pol), kg + [false, true], keys - 1, rejects)
  }

  /** Every place of the list is reached, wherever the loop starts. */
  lemma AllVisited(s: State, kg: seq<bool>, keys: nat, rejects: State -> bool, start: nat)
    requires keys > 0 && forall p :: 0 <= p < |s.list| ==> RoundPassed(s, kg, keys, rejects, start, p)
    ensures Stuck(s, kg, keys, rejects)
  {
    forall n | n in s.list && Eligible(s, kg, n)
      ensures exists pol :: CanFlip(s, n, pol) && FailsAt(s, kg, keys, rejects, n, pol)
    {
      var q :| 0 <= q < |s.list| && s.list[q] == n;
      var p := Reaching(q, start, |s.list|);
      assert RoundPassed(s, kg, keys, rejects, start, p);
    }
  }

  lemma Reaching(q: nat, start: nat, size: nat) returns (p: nat)
    requires q < size
    ensures p < size && (p + start) % size == q
  {
    var k, r := start / size, start % size;
    if q >= r {
      p := q - r;
      Remainder(p + start, size, k, q);
    } else {
      p := q + size - r;
      Remainder(p + start, size, k + 1, q);
    }
  }

  lemma Remainder(x: nat, m: nat, k: nat, r: nat)
    requires r < m && x == m * k + r
    ensures x % m == r
  {
    var d := x / m;
    assert d < k ==> m * (d + 1) <= m * k;
    assert d > k ==> m * (k + 1) <= m * d;
  }

  /** Undoing the listed insertions, the latest first, leads from `s` to `t`. */
  predicate Undoes(s: State, records: seq<Record>, t: State)
    decreases records
  {
    if records == [] then s == t
    else Removable(s, records[0]) && Undoes(Removed(s, records[0]), records[1..], t)
  }

  lemma {:induction false} UndoesSnoc(s: State, records: seq<Record>, t: State, r: Record)
    requires Undoes(s, records, t) && Removable(t, r)
    ensures Undoes(s, records + [r], Removed(t, r))
    decreases records
  {
    hide Removed, Removable;
    if records == [] {
      assert [r][1..] == [];
    } else {
      UndoesSnoc(Removed(s, records[0]), records[1..], t, r);
      assert (records + [r])[1..] == records[1..] + [r];
    }
  }

  lemma AddFacts(s: State, g: nat)
    requires Good(s) && g < |s.nodes|
    ensures |s.fanouts| == |s.isOut| == |s.nodes| && (s.isOut[g] ==> g in s.outputs)
  {
  }

  lemma FanoutsRead(s: State, g: nat, pol: bool)
    requires Insertable(s, g, pol)
    ensures NoDup(s.fanouts[g]) && forall f :: f in s.fanouts[g] ==> Feeds(Inverted(s.nodes, g, pol), g, f)
  {
    assert MirrorAt(s.nodes, s.fanouts, g);
    forall f | f in s.fanouts[g] ensures Feeds(Inverted(s.nodes, g, pol), g, f) {
      assert Feeds(s.nodes, g, f);
    }
  }

  /** After `_add_key`, the key gate feeds the old fanouts, which is what `_remove_key` relies on. */
  lemma EncFeeds(s: State, g: nat, pol: bool)
    requires Insertable(s, g, pol)
    ensures var t := Added(s, g, pol);
      NoDup(s.fanouts[g]) && forall f :: f in s.fanouts[g] ==> Feeds(Inverted(t.nodes, g, pol), |s.nodes| + 1, f)
  {
    hide Valid, MirrorAt, Orderable, Spliced, Inverted;
    Sizes(s, g, pol);
    CanSplice(s, g, pol);
    FanoutsRead(s, g, pol);
    var n: nat := |s.nodes|;
    var e: nat := n + 1;
    forall f | f in s.fanouts[g]
      ensures Feeds(Inverted(Added(s, g, pol).nodes, g, pol), e, f)
    {
      assert Feeds(s.nodes, g, f);
      PairFeeds(s.nodes, s.fanouts[g], g, pol, if pol then Xnor else Xor, KeyIn, e, f);
      InvertedFeeds(Added(s, g, pol).nodes, g, pol, e, f);
    }
  }

  lemma InvertedFeeds(ns: seq<Node>, g: nat, pol: bool, a: nat, h: nat)
    requires g < |ns|
    ensures Feeds(Inverted(ns, g, pol), a, h) <==> Feeds(ns, a, h)
  {
  }

  /** How `recursiveEncode` ends; with `NoComplement`, `invert` was asked for a complement there is not. */
  datatype Encoding = Inserted | GaveUp | NoComplement

  class EncCkt {
    var nodes: seq<Node>
    var fanouts: seq<seq<nat>>
    var isOut: seq<bool>
    /** Gates that the encoder put in. */
    var keygate: seq<bool>
    var nodeList: seq<nat>
    var inputs: seq<nat>
    var keyInputs: seq<nat>
    var gates: seq<nat>
    var outputs: seq<nat>

    function St(): State
      reads this
    {
      State(nodes, fanouts, isOut, nodeList, inputs, keyInputs, gates, outputs)
    }

    /** `_add_key`. */
    method AddKey(g: nat, polarity: bool) returns (krec: Record)
      requires Good(St()) && g < |nodes| && CanFlip(St(), g, polarity) && |keygate| == |nodes|
      modifies this
      ensures St() == Added(old(St()), g, polarity) && krec == RecordOf(old(St()), g, polarity)
      ensures keygate == old(keygate) + [false, true]
    {
      hide Good, Valid, Insertable, BP.Rewired;
      ghost var s := St();
      AddedGood(s, g, polarity);
      AddFacts(s, g);
      FanoutsRead(s, g, polarity);
      var keyInp: nat := |nodes|;
      var encG: nat := keyInp + 1;
      AddKeyInput(keyInp);
      AddGate(encG);
      if polarity {
        nodes := nodes[g := nodes[g].(func := Invert(nodes[g].func))];
      }
      var rewritten := RewriteFanins(fanouts[g], g, encG);
      Allocate(g, encG, [KeyIn, EncGate(polarity, keyInp, g)]);
      assert nodeList == s.list + [keyInp, encG];
      MoveOutput(g, encG);
      krec := Record(polarity, keyInp, g, encG, rewritten);
    }

    /** `add_key_input`. */
    method AddKeyInput(k: nat)
      modifies this`nodeList, this`inputs, this`keyInputs
      ensures nodeList == old(nodeList) + [k] && inputs == old(inputs) + [k] && keyInputs == old(keyInputs) + [k]
    {
      nodeList := nodeList + [k];
      inputs := inputs + [k];
      keyInputs := keyInputs + [k];
    }

    /** `add_gate`. */
    method AddGate(e: nat)
      modifies this`nodeList, this`gates
      ensures nodeList == old(nodeList) + [e] && gates == old(gates) + [e]
    {
      nodeList := nodeList + [e];
      gates := gates + [e];
    }

    /** The new key input and key gate `e`, which takes over the fanouts of `g`. */
    method Allocate(g: nat, e: nat, cells: seq<Node>)
      requires g < |fanouts|
      modifies this`nodes, this`fanouts, this`keygate, this`isOut
      ensures nodes == old(nodes) + cells && keygate == old(keygate) + [false, true]
      ensures fanouts == old(fanouts)[g := [e]] + [[e], old(fanouts)[g]] && isOut == old(isOut) + [false, false]
    {
      nodes := nodes + cells;
      fanouts := fanouts[g := [e]] + [[e], fanouts[g]];
      keygate := keygate + [false, true];
      isOut := isOut + [false, false];
    }

    /** An output of `g` becomes one of `e`, the newest node. */
    method MoveOutput(g: nat, e: nat)
      requires g < e == |isOut| - 1 && !isOut[e] && (isOut[g] ==> g in outputs)
      modifies this`isOut, this`outputs
      ensures isOut == old(isOut)[e := old(isOut)[g]][g := false]
      ensures outputs == if old(isOut)[g] then ReplaceOutput(old(outputs), g, e) else old(outputs)
    {
      if isOut[g] {
        isOut := isOut[e := true][g := false];
        outputs := ReplaceOutput(outputs, g, e);
      }
    }

    /** The loop that makes the nodes in `fs` read `y` in place of `x`. */
    method RewriteFanins(fs: seq<nat>, x: nat, y: nat) returns (rewritten: seq<nat>)
      requires NoDup(fs) && forall f :: f in fs ==> Feeds(nodes, x, f)
      modifies this`nodes
      ensures nodes == BP.Rewired(old(nodes), fs, x, y) && rewritten == fs
    {
      ghost var ns0 := nodes;
      rewritten := [];
      for i := 0 to |fs|
        invariant rewritten == fs[..i] && nodes == BP.Rewired(ns0, fs[..i], x, y)
      {
        var fi := fs[i];
        assert fi in fs && Feeds(ns0, x, fi);
        assert fi !in fs[..i];
        assert fs[..i + 1] == fs[..i] + [fi];
        assert x in nodes[fi].fanins;
        nodes := nodes[fi := nodes[fi].(fanins := BP.Replace(nodes[fi].fanins, x, y))];
        rewritten := rewritten + [fi];
      }
      assert fs[..|fs|] == fs;
    }

    /** `_remove_key`, for the key added last. */
    method RemoveKey(krec: Record, ghost s: State, ghost pol: bool)
      requires Good(s) && krec.orig < |s.nodes| && CanFlip(s, krec.orig, pol) && |keygate| == |nodes|
      requires (s.isOut[krec.orig] ==> krec.orig in s.outputs)
      requires St() == Added(s, krec.orig, pol) && krec == RecordOf(s, krec.orig, pol)
      modifies this
      ensures St() == s && keygate == old(keygate)[..|s.nodes|]
    {
      hide Good, Valid, BP.Rewired, Spliced, RemoveFromArray, ReplaceOutput, Removable, Removed, Inverted, Added,
        RecordOf;
      ReadyToRemove(s, krec.orig, pol);
      RemovedParts(St(), krec, s);
      Unsplice(krec);
      RemoveKeyInput(krec.key);
      RemoveGate(krec.enc);
      Free(krec.key);
    }

    /** `_remove_key` on functions, outputs, fanins and fanouts. */
    method Unsplice(krec: Record)
      requires Removable(St(), krec) && (krec.inv ==> nodes[krec.orig].Gate?) && NoDup(krec.rewritten)
      requires forall f :: f in krec.rewritten ==> Feeds(Inverted(nodes, krec.orig, krec.inv), krec.enc, f)
      modifies this`nodes, this`fanouts, this`isOut, this`outputs
      ensures nodes == BP.Rewired(Inverted(old(nodes), krec.orig, krec.inv), krec.rewritten, krec.enc, krec.orig)
      ensures fanouts == old(fanouts)[krec.orig := krec.rewritten]
      ensures isOut == if old(isOut)[krec.enc] then old(isOut)[krec.orig := true] else old(isOut)
      ensures outputs == if old(isOut)[krec.enc] then ReplaceOutput(old(outputs), krec.enc, krec.orig) else old(outputs)
    {
      var orig := krec.orig;
      if krec.inv {
        nodes := nodes[orig := nodes[orig].(func := Invert(nodes[orig].func))];
      }
      RestoreOutput(orig, krec.enc);
      var _ := RewriteFanins(krec.rewritten, krec.enc, orig);
      fanouts := fanouts[orig := krec.rewritten];
    }

    /** `remove_key_input`. */
    method RemoveKeyInput(k: nat)
      requires k in keyInputs && k in inputs && k in nodeList
      modifies this`keyInputs, this`inputs, this`nodeList
      ensures keyInputs == RemoveFromArray(old(keyInputs), k) && inputs == RemoveFromArray(old(inputs), k)
      ensures nodeList == RemoveFromArray(old(nodeList), k)
    {
      keyInputs := RemoveFromArray(keyInputs, k);
      inputs := RemoveFromArray(inputs, k);
      nodeList := RemoveFromArray(nodeList, k);
    }

    /** `remove_gate`. */
    method RemoveGate(e: nat)
      requires e in nodeList && e in gates
      modifies this`nodeList, this`gates
      ensures nodeList == RemoveFromArray(old(nodeList), e) && gates == RemoveFromArray(old(gates), e)
    {
      nodeList := RemoveFromArray(nodeList, e);
      gates := RemoveFromArray(gates, e);
    }

    /** An output of `e` goes back to `g`. */
    method RestoreOutput(g: nat, e: nat)
      requires g < |isOut| && e < |isOut| && (isOut[e] ==> e in outputs)
      modifies this`isOut, this`outputs
      ensures isOut == if old(isOut)[e] then old(isOut)[g := true] else old(isOut)
      ensures outputs == if old(isOut)[e] then ReplaceOutput(old(outputs), e, g) else old(outputs)
    {
      if isOut[e] {
        isOut := isOut[g := true];
        outputs := ReplaceOutput(outputs, e, g);
      }
    }

    /** `delete` of the newest nodes. */
    method Free(size: nat)
      requires size <= |nodes| && size <= |fanouts| && size <= |isOut| && size <= |keygate|
      modifies this`nodes, this`fanouts, this`isOut, this`keygate
      ensures nodes == old(nodes)[..size] && fanouts == old(fanouts)[..size]
      ensures isOut == old(isOut)[..size] && keygate == old(keygate)[..size]
    {
      nodes, fanouts, isOut, keygate := nodes[..size], fanouts[..size], isOut[..size], keygate[..size];
    }

    /** `is_fanout_keygate`. */
    method FeedsKeygate(n: nat) returns (b: bool)
      requires n < |fanouts| && forall f :: f in fanouts[n] ==> f < |keygate|
      ensures b <==> exists f :: f in fanouts[n] && keygate[f]
    {
      b := false;
      for i := 0 to |fanouts[n]|
        invariant forall j :: 0 <= j < i ==> fanouts[n][j] in fanouts[n] && !keygate[fanouts[n][j]]
      {
        assert fanouts[n][i] in fanouts[n];
        if keygate[fanouts[n][i]] {
          return true;
        }
      }
    }

    /**
     `recursiveEncode`: inserts `keys` keys behind nodes, taking back every insertion
     that `rejects`, the test of the source, turns down or that cannot be completed.
     When it gives up, the circuit is exactly as on entry, and behind every node that is
     and feeds no key gate an insertion was turned down or led to failure; on success it
     has `keys` more keys, the records undo them, and with these keys at zero it computes
     what it did.  It stops where the drawn polarity asks for a complement there is not.
     */
    method RecursiveEncode(keys: nat, rejects: State -> bool) returns (r: Encoding, records: seq<Record>)
      requires Good(St()) && |keygate| == |nodes| && |gates| > 0
      modifies this
      ensures !r.NoComplement? ==> Good(St()) && |keygate| == |nodes| && |gates| > 0
      ensures r.GaveUp? ==> St() == old(St()) && keygate == old(keygate)
      ensures r.GaveUp? ==> Stuck(old(St()), old(keygate), keys, rejects)
      ensures r.Inserted? ==> Built(old(St()), old(keygate), St(), records, rejects)
      ensures r.Inserted? ==> Locks(old(St()), St(), ZeroKey(keys))
      ensures r.Inserted? ==>
        |keyInputs| == |old(keyInputs)| + keys && |records| == keys && Undoes(St(), records, old(St()))
      ensures r.NoComplement? ==> !AllInvertible(old(nodes)) && Stops(old(St()), old(keygate), keys, rejects)
      decreases keys
    {
      hide Good, Valid, Locks, Added, RecordOf, Removed, Removable, Undoes, Built, Stuck, PassedOver, Accepted,
        AllInvertible;
      hide Insertable, Eligible, Stops, ComesNext;
      records := [];
      if keys == 0 {
        LocksRefl(St());
        assert ZeroKey(0) == [];
        UndoesNothing(St());
        BuiltNothing(St(), keygate, rejects);
        return Inserted, records;
      }
      ghost var s, kg := St(), keygate;
      var initPos :| 0 <= initPos < |gates|;
      var curPos := 0;
      while curPos < |nodeList|
        invariant 0 <= curPos <= |s.list| && St() == s && keygate == kg
        invariant forall p :: 0 <= p < curPos ==> RoundPassed(s, kg, keys, rejects, initPos, p)
      {
        var n := nodeList[(curPos + initPos) % |nodeList|];
        NodeInRange(s, n);
        curPos := curPos + 1;
        EligibleIs(s, kg, keys, rejects, n);
        if keygate[n] {
          continue;
        }
        var behind := FeedsKeygate(n);
        if behind {
          continue;
        }
        var polarity: bool := *;
        NextIs(s, kg, keys, rejects, n, initPos, curPos - 1);
        if !nodes[n].Gate? {
          polarity := false;
        } else if polarity && !Invertible(nodes, n) {
          NotAllInvertible(s.nodes, n);
          StopsHere(s, kg, keys, rejects, n);
          return NoComplement, [];
        }
        var kr := AddKey(n, polarity);
        AfterAdd(s, n, polarity);
        if |keyInputs| > 1 && rejects(St()) {
          TurnedDown(s, kg, keys, rejects, n, polarity);
          RemoveKey(kr, s, polarity);
          assert keygate == kg;
          continue;
        }
        var outcome, rest := RecursiveEncode(keys - 1, rejects);
        if outcome.NoComplement? {
          StopsLater(s, kg, keys, rejects, n, polarity);
          return outcome, [];
        }
        if outcome.Inserted? {
          OneMore(s, kg, St(), rest, rejects, n, polarity, kr, keys);
          return Inserted, rest + [kr];
        }
        LedNowhere(s, kg, keys, rejects, n, polarity);
        RemoveKey(kr, s, polarity);
        assert keygate == kg;
      }
      AllVisited(s, kg, keys, rejects, initPos);
      r := GaveUp;
    }
  }

  lemma NotAllInvertible(ns: seq<Node>, n: nat)
    requires IsGate(ns, n) && !Invertible(ns, n)
    ensures !AllInvertible(ns)
  {
  }

  lemma BuiltNothing(s: State, kg: seq<bool>, rejects: State -> bool)
    ensures Built(s, kg, s, [], rejects)
  {
  }

  lemma EligibleIs(s: State, kg: seq<bool>, keys: nat, rejects: State -> bool, n: nat)
    requires Good(s) && n < |s.nodes| == |kg| && keys > 0
    ensures |s.fanouts| == |s.nodes| && forall f :: f in s.fanouts[n] ==> f < |kg|
    ensures Eligible(s, kg, n) <==> !kg[n] && !exists f :: f in s.fanouts[n] && kg[f]
    ensures !Eligible(s, kg, n) ==> PassedOver(s, kg, keys, rejects, n)
  {
    assert MirrorAt(s.nodes, s.fanouts, n);
    forall f | f in s.fanouts[n] ensures f < |kg| {
      assert Feeds(s.nodes, n, f);
    }
  }

  lemma TurnedDown(s: State, kg: seq<bool>, keys: nat, rejects: State -> bool, n: nat, pol: bool)
    requires keys > 0 && Eligible(s, kg, n) && CanFlip(s, n, pol)
    requires |Added(s, n, pol).keyInputs| > 1 && rejects(Added(s, n, pol))
    ensures PassedOver(s, kg, keys, rejects, n)
  {
    hide Added;
    assert FailsAt(s, kg, keys, rejects, n, pol);
  }

  lemma NextIs(s: State, kg: seq<bool>, keys: nat, rejects: State -> bool, n: nat, start: nat, p: nat)
    requires start < |s.gates| && p < |s.list| && s.list[(p + start) % |s.list|] == n
    requires forall q :: 0 <= q < p ==> RoundPassed(s, kg, keys, rejects, start, q)
    ensures ComesNext(s, kg, keys, rejects, n)
  {
    hide RoundPassed;
    assert ComesAt(s, kg, keys, rejects, n, start, p);
  }

  lemma StopsHere(s: State, kg: seq<bool>, keys: nat, rejects: State -> bool, n: nat)
    requires keys > 0 && Eligible(s, kg, n) && ComesNext(s, kg, keys, rejects, n)
    requires IsGate(s.nodes, n) && !Invertible(s.nodes, n)
    ensures Stops(s, kg, keys, rejects)
  {
    hide ComesNext;
    assert StopsAt(s, kg, keys, rejects, n);
  }

  lemma StopsLater(s: State, kg: seq<bool>, keys: nat, rejects: State -> bool, n: nat, pol: bool)
    requires keys > 0 && Eligible(s, kg, n) && ComesNext(s, kg, keys, rejects, n) && CanFlip(s, n, pol)
    requires |Added(s, n, pol).keyInputs| > 1 ==> !rejects(Added(s, n, pol))
    requires Stops(Added(s, n, pol), kg + [false, true], keys - 1, rejects)
    ensures Stops(s, kg, keys, rejects)
  {
    hide ComesNext, Added, Eligible;
    assert StopsAt(s, kg, keys, rejects, n);
  }

  lemma LedNowhere(s: State, kg: seq<bool>, keys: nat, rejects: State -> bool, n: nat, pol: bool)
    requires keys > 0 && Eligible(s, kg, n) && CanFlip(s, n, pol)
    requires Stuck(Added(s, n, pol), kg + [false, true], keys - 1, rejects)
    ensures PassedOver(s, kg, keys, rejects, n)
  {
    hide Added, Stuck;
    assert FailsAt(s, kg, keys, rejects, n, pol);
  }

  lemma BuiltMore(s: State, kg: seq<bool>, t: State, rest: seq<Record>, rejects: State -> bool, n: nat, pol: bool)
    requires Eligible(s, kg, n) && CanFlip(s, n, pol) && ComesNext(s, kg, |rest| + 1, rejects, n)
    requires |Added(s, n, pol).keyInputs| > 1 ==> !rejects(Added(s, n, pol))
    requires Built(Added(s, n, pol), kg + [false, true], t, rest, rejects)
    ensures Built(s, kg, t, rest + [RecordOf(s, n, pol)], rejects)
  {
    hide Added, ComesNext;
    assert (rest + [RecordOf(s, n, pol)])[..|rest|] == rest;
  }

  /** An insertion, and the rest completed after it. */
  lemma OneMore(
      s: State, kg: seq<bool>, t: State, rest: seq<Record>, rejects: State -> bool, n: nat, pol: bool,
      r: Record, keys: nat)
    requires Eligible(s, kg, n) && CanFlip(s, n, pol) && keys > 0 && Insertable(s, n, pol) && Good(Added(s, n, pol))
    requires |Added(s, n, pol).keyInputs| > 1 ==> !rejects(Added(s, n, pol))
    requires r == RecordOf(s, n, pol) && Removable(Added(s, n, pol), r) && Removed(Added(s, n, pol), r) == s
    requires Built(Added(s, n, pol), kg + [false, true], t, rest, rejects)
    requires |rest| == keys - 1 && ComesNext(s, kg, keys, rejects, n)
    requires Locks(Added(s, n, pol), t, ZeroKey(keys - 1)) && Undoes(t, rest, Added(s, n, pol))
    ensures Built(s, kg, t, rest + [r], rejects) && Locks(s, t, ZeroKey(keys)) && Undoes(t, rest + [r], s)
  {
    hide Good, Valid, Locks, Removed, Removable, Undoes, Built, Added, RecordOf, Insertable, ComesNext;
    BuiltMore(s, kg, t, rest, rejects, n, pol);
    LockMore(s, n, pol, t, keys - 1);
    UndoesSnoc(t, rest, Added(s, n, pol), r);
  }

  lemma UndoesNothing(s: State)
    ensures Undoes(s, [], s)
  {
  }

  lemma NodeInRange(s: State, n: nat)
    requires Good(s) && n in s.list
    ensures n < |s.nodes| == |s.fanouts| && forall f :: f in s.fanouts[n] ==> f < |s.nodes|
  {
    assert MirrorAt(s.nodes, s.fanouts, n);
    forall f | f in s.fanouts[n] ensures f < |s.nodes| {
      assert Feeds(s.nodes, n, f);
    }
  }

  lemma AfterAdd(s: State, g: nat, pol: bool)
    requires Good(s) && g < |s.nodes| && CanFlip(s, g, pol)
    ensures |s.fanouts| == |s.isOut| == |s.nodes| && (s.isOut[g] ==> g in s.outputs)
    ensures var t := Added(s, g, pol); var r := RecordOf(s, g, pol);
      && Insertable(s, g, pol) && Good(t) && |t.nodes| == |s.nodes| + 2 && |t.keyInputs| == |s.keyInputs| + 1
      && |t.gates| > 0
      && r.orig == g && Removable(t, r) && Removed(t, r) == s && (AllInvertible(s.nodes) ==> AllInvertible(t.nodes))
  {
    AddedGood(s, g, pol);
    AddedInvertible(s, g, pol);
    RemoveUndoesAdd(s, g, pol);
  }
}
