/**
 The indexed binary heap of cmsat's `Heap.h`: `heap` holds the elements, `indices` says
 where each one is.  Every public operation keeps the order from the root on and keeps
 the two lists inverse to each other.

 The comparison is a field, since the activities behind it change between calls:
 `Decrease`, `Increase` and `Update` are called when one element's place in the order
 has changed, and repair the heap for the new order.
 */
module VarHeap {

  /** The index that stands for "not in the heap". */
  const NOWHERE: nat := 0xFFFF_FFFF

  type Order = (nat, nat) -> bool

  /** A strict order in which incomparable elements may be exchanged. */
  ghost predicate StrictWeak(lt: Order) {
    && (forall x: nat :: !lt(x, x))
    && (forall x: nat, y: nat, z: nat :: lt(x, y) && lt(y, z) ==> lt(x, z))
    && (forall x: nat, y: nat, z: nat :: !lt(x, y) && !lt(y, z) ==> !lt(x, z))
  }

  function Left(i: nat): nat { i * 2 + 1 }

  function Right(i: nat): nat { (i + 1) * 2 }

  function Parent(i: nat): (p: nat)
    requires i > 0
    ensures p < i
  {
    (i - 1) / 2
  }

  /** `indices` is the inverse of `heap`, and points nowhere for everything else. */
  ghost predicate Inverse(heap: seq<nat>, indices: seq<nat>) {
    && |heap| < NOWHERE
    && (forall k :: 0 <= k < |heap| ==> heap[k] < |indices| && indices[heap[k]] == k)
    && (forall x :: 0 <= x < |indices| && indices[x] != NOWHERE ==> indices[x] < |heap| && heap[indices[x]] == x)
  }

  /** No element whose parent is at place `from` or later is before its parent. */
  ghost predicate OrderedFrom(heap: seq<nat>, lt: Order, from: nat) {
    forall k: nat :: 0 < k < |heap| && Parent(k) >= from ==> !lt(heap[k], heap[Parent(k)])
  }

  ghost predicate Ordered(heap: seq<nat>, lt: Order) {
    OrderedFrom(heap, lt, 0)
  }

  /** Ordered from `from` on but for the element at `i`: its children are in order with its parent. */
  ghost predicate OrderedBut(heap: seq<nat>, lt: Order, i: nat, from: nat) {
    && (forall k: nat :: 0 < k < |heap| && Parent(k) >= from && k != i && Parent(k) != i ==>
          !lt(heap[k], heap[Parent(k)]))
    && (forall k: nat :: 0 < k < |heap| && Parent(k) == i && i > 0 && Parent(i) >= from ==>
          !lt(heap[k], heap[Parent(i)]))
  }

  ghost predicate ChildrenAfter(heap: seq<nat>, lt: Order, i: nat) {
    forall k: nat :: 0 < k < |heap| && Parent(k) == i ==> !lt(heap[k], heap[i])
  }

  ghost predicate ParentBefore(heap: seq<nat>, lt: Order, i: nat, from: nat) {
    0 < i < |heap| && Parent(i) >= from ==> !lt(heap[i], heap[Parent(i)])
  }

  /** An element whose key alone has changed leaves the heap ordered but for it. */
  lemma KeyChanged(heap: seq<nat>, indices: seq<nat>, lt: Order, lt': Order, n: nat)
    requires StrictWeak(lt) && Inverse(heap, indices) && Ordered(heap, lt) && n < |indices| && indices[n] != NOWHERE
    requires forall x: nat, y: nat :: x != n && y != n ==> lt'(x, y) == lt(x, y)
    ensures OrderedBut(heap, lt', indices[n], 0)
  {
    var i := indices[n];
    forall k: nat | 0 < k < |heap| && k != i && Parent(k) != i
      ensures !lt'(heap[k], heap[Parent(k)])
    {
      assert heap[k] != n && heap[Parent(k)] != n;
    }
    forall k: nat | 0 < k < |heap| && Parent(k) == i && i > 0
      ensures !lt'(heap[k], heap[Parent(i)])
    {
      assert !lt(heap[k], heap[i]) && !lt(heap[i], heap[Parent(i)]);
      assert heap[k] != n && heap[Parent(i)] != n;
    }
  }

  /** The root of an ordered heap is a minimum. */
  lemma {:induction false} RootLeast(heap: seq<nat>, lt: Order, k: nat)
    requires StrictWeak(lt) && Ordered(heap, lt) && k < |heap|
    ensures !lt(heap[k], heap[0])
    decreases k
  {
    if k > 0 {
      RootLeast(heap, lt, Parent(k));
      assert !lt(heap[k], heap[Parent(k)]) && !lt(heap[Parent(k)], heap[0]);
    }
  }

  lemma Asymmetric(lt: Order)
    requires StrictWeak(lt)
    ensures forall x: nat, y: nat :: lt(x, y) ==> !lt(y, x)
  {
  }

  // ----- exchanging two elements -----

  function Swap(heap: seq<nat>, i: nat, j: nat): (r: seq<nat>)
    requires i < |heap| && j < |heap|
    ensures |r| == |heap|
  {
    heap[i := heap[j]][j := heap[i]]
  }

  lemma SwapInverse(heap: seq<nat>, indices: seq<nat>, i: nat, j: nat)
    requires Inverse(heap, indices) && i < |heap| && j < |heap| && i != j
    ensures Inverse(Swap(heap, i, j), indices[heap[j] := i][heap[i] := j])
    ensures multiset(Swap(heap, i, j)) == multiset(heap)
  {
  }

  lemma UpStep(h: seq<nat>, lt: Order, i: nat)
    requires StrictWeak(lt) && 0 < i < |h| && OrderedBut(h, lt, i, 0) && lt(h[i], h[Parent(i)])
    ensures OrderedBut(Swap(h, i, Parent(i)), lt, Parent(i), 0) && ChildrenAfter(Swap(h, i, Parent(i)), lt, Parent(i))
  {
    var p := Parent(i);
    var h' := Swap(h, i, p);
    forall k: nat | 0 < k < |h| && Parent(k) == p && p > 0
      ensures !lt(h'[k], h'[Parent(p)])
    {
      assert !lt(h[p], h[Parent(p)]);
      if k != i {
        assert !lt(h[k], h[p]);
      }
    }
    forall k: nat | 0 < k < |h| && Parent(k) == p
      ensures !lt(h'[k], h'[p])
    {
      if k != i {
        assert !lt(h[k], h[p]);
      }
    }
  }

  /** The child that `percolateDown` looks at. */
  function Child(h: seq<nat>, lt: Order, i: nat): nat
    requires Left(i) < |h|
  {
    if Right(i) < |h| && lt(h[Right(i)], h[Left(i)]) then Right(i) else Left(i)
  }

  lemma ChildLeast(h: seq<nat>, lt: Order, i: nat)
    requires StrictWeak(lt) && Left(i) < |h|
    ensures 0 < Child(h, lt, i) < |h| && Parent(Child(h, lt, i)) == i
    ensures forall k: nat :: 0 < k < |h| && Parent(k) == i ==> !lt(h[k], h[Child(h, lt, i)])
  {
    forall k: nat | 0 < k < |h| && Parent(k) == i ensures k == Left(i) || k == Right(i) {
    }
    Asymmetric(lt);
  }

  lemma DownStep(h: seq<nat>, lt: Order, i: nat, from: nat)
    requires StrictWeak(lt) && from <= i && Left(i) < |h| && OrderedBut(h, lt, i, from)
    requires lt(h[Child(h, lt, i)], h[i])
    ensures var c := Child(h, lt, i); var h' := Swap(h, i, c);
      c > i && OrderedBut(h', lt, c, from) && ParentBefore(h', lt, c, from)
  {
    var c := Child(h, lt, i);
    ChildLeast(h, lt, i);
    var h' := Swap(h, i, c);
    forall k: nat | 0 < k < |h| && Parent(k) >= from && k != c && Parent(k) != c
      ensures !lt(h'[k], h'[Parent(k)])
    {
      assert Parent(k) == i ==> !lt(h[k], h[c]);
      assert k == i ==> !lt(h[c], h[Parent(i)]);
    }
    forall k: nat | 0 < k < |h| && Parent(k) == c
      ensures !lt(h'[k], h'[Parent(c)])
    {
      assert !lt(h[k], h[c]);
    }
    assert !lt(h[i], h[c]);
  }

  lemma ThenOrdered(h: seq<nat>, lt: Order, i: nat, from: nat)
    requires OrderedBut(h, lt, i, from) && ChildrenAfter(h, lt, i) && ParentBefore(h, lt, i, from)
    ensures OrderedFrom(h, lt, from)
  {
  }

  lemma DownDone(h: seq<nat>, lt: Order, i: nat, from: nat)
    requires StrictWeak(lt) && i < |h| && OrderedBut(h, lt, i, from) && ParentBefore(h, lt, i, from)
    requires Left(i) < |h| ==> !lt(h[Child(h, lt, i)], h[i])
    ensures OrderedFrom(h, lt, from)
  {
    if Left(i) < |h| {
      ChildLeast(h, lt, i);
    }
    forall k: nat | 0 < k < |h| && Parent(k) == i ensures !lt(h[k], h[i]) {
      assert k == Left(i) || k == Right(i);
    }
    ThenOrdered(h, lt, i, from);
  }

  /** There is a hole at `i`; `h` is the heap with `x` put into it. */
  ghost predicate Hole(heap: seq<nat>, indices: seq<nat>, h: seq<nat>, x: nat, i: nat) {
    i < |heap| == |h| && x < |indices| && h == heap[i := x] && Inverse(h, indices[x := i])
  }

  lemma HoleStart(heap: seq<nat>, indices: seq<nat>, i: nat)
    requires Inverse(heap, indices) && i < |heap|
    ensures Hole(heap, indices, heap, heap[i], i)
  {
    assert heap[i := heap[i]] == heap && indices[heap[i] := i] == indices;
  }

  lemma HoleAt(heap: seq<nat>, indices: seq<nat>, h: seq<nat>, x: nat, i: nat, p: nat)
    requires Hole(heap, indices, h, x, i) && p < |heap| && p != i
    ensures heap[p] == h[p] && h[i] == x
  {
  }

  lemma HoleChild(heap: seq<nat>, indices: seq<nat>, h: seq<nat>, lt: Order, x: nat, i: nat)
    requires Hole(heap, indices, h, x, i) && Left(i) < |heap|
    ensures Child(h, lt, i) == Child(heap, lt, i) && heap[Child(h, lt, i)] == h[Child(h, lt, i)] && h[i] == x
  {
  }

  lemma HoleMoves(heap: seq<nat>, indices: seq<nat>, h: seq<nat>, x: nat, i: nat, p: nat)
    requires Hole(heap, indices, h, x, i) && p < |heap| && p != i
    ensures heap[p] < |indices|
    ensures Hole(heap[i := heap[p]], indices[heap[p] := i], Swap(h, i, p), x, p)
    ensures multiset(Swap(h, i, p)) == multiset(h)
  {
    var w := indices[x := i];
    SwapInverse(h, w, i, p);
    assert h[p] != x;
    assert w[h[p] := i][x := p] == indices[heap[p] := i][x := p];
  }

  lemma HoleFilled(heap: seq<nat>, indices: seq<nat>, h: seq<nat>, x: nat, i: nat)
    requires Hole(heap, indices, h, x, i)
    ensures i < |heap| && x < |indices| && heap[i := x] == h && h[i] == x && Inverse(h, indices[x := i])
    ensures forall k :: 0 <= k < |heap| && k != i ==> h[k] == heap[k]
  {
  }

  class Heap {
    var lt: Order
    var heap: seq<nat>
    var indices: seq<nat>

    ghost predicate Valid()
      reads this
    {
      StrictWeak(lt) && Inverse(heap, indices) && Ordered(heap, lt)
    }

    predicate InHeap(n: nat)
      reads this
    {
      n < |indices| && indices[n] != NOWHERE
    }

    constructor (c: Order)
      requires StrictWeak(c)
      ensures Valid() && heap == [] && lt == c
    {
      lt := c;
      heap, indices := [], [];
    }

    /** The element at `i` rises until its parent is not after it. */
    method PercolateUp(i0: nat) returns (ghost at: nat)
      requires StrictWeak(lt) && Inverse(heap, indices) && i0 < |heap| && OrderedBut(heap, lt, i0, 0)
      modifies this`heap, this`indices
      ensures Inverse(heap, indices) && multiset(heap) == multiset(old(heap)) && |indices| == |old(indices)|
      ensures at < |heap| && heap[at] == old(heap)[i0]
      ensures OrderedBut(heap, lt, at, 0) && ParentBefore(heap, lt, at, 0)
      ensures ChildrenAfter(old(heap), lt, i0) ==> Ordered(heap, lt)
    {
      var i: nat := i0;
      var x := heap[i0];
      ghost var h := heap;
      ghost var rested := ChildrenAfter(heap, lt, i0);
      HoleStart(heap, indices, i);
      hide Hole, OrderedBut, ChildrenAfter, Swap, StrictWeak, OrderedFrom, Parent, ParentBefore, Inverse;
      while i != 0 && lt(x, heap[Parent(i)])
        invariant i < |heap| == |h| && |indices| == |old(indices)| && Hole(heap, indices, h, x, i)
        invariant multiset(h) == multiset(old(heap)) && OrderedBut(h, lt, i, 0)
        invariant rested ==> ChildrenAfter(h, lt, i)
      {
        var p := Parent(i);
        HoleAt(heap, indices, h, x, i, p);
        UpStep(h, lt, i);
        Pull(i, p, x, h);
        h := Swap(h, i, p);
        i := p;
      }
      HoleFilled(heap, indices, h, x, i);
      NotBefore(heap[i := x], lt, i);
      heap := heap[i := x];
      indices := indices[x := i];
      at := i;
      if rested {
        ThenOrdered(heap, lt, i, 0);
      }
    }

    /** The element at `p` goes to the place `i`, and `p` is free for `x`. */
    method Pull(i: nat, p: nat, x: nat, ghost h: seq<nat>)
      requires Hole(heap, indices, h, x, i) && p < |heap| && p != i
      modifies this`heap, this`indices
      ensures |heap| == |old(heap)| == |h| && i < |h| && |indices| == |old(indices)|
      ensures Hole(heap, indices, Swap(h, i, p), x, p) && multiset(Swap(h, i, p)) == multiset(h)
    {
      HoleMoves(heap, indices, h, x, i, p);
      heap := heap[i := heap[p]];
      indices := indices[heap[i] := i];
    }

    /** The element at `i` sinks until no child is before it. */
    method PercolateDown(i0: nat, ghost from: nat)
      requires StrictWeak(lt) && Inverse(heap, indices) && from <= i0 < |heap| && OrderedBut(heap, lt, i0, from)
      requires ParentBefore(heap, lt, i0, from)
      modifies this`heap, this`indices
      ensures Inverse(heap, indices) && multiset(heap) == multiset(old(heap)) && |indices| == |old(indices)|
      ensures OrderedFrom(heap, lt, from)
    {
      var i: nat := i0;
      var x := heap[i0];
      ghost var h := heap;
      HoleStart(heap, indices, i);
      hide Hole, OrderedBut, Swap, StrictWeak, ParentBefore, OrderedFrom, Inverse;
      while Left(i) < |heap|
        invariant from <= i < |heap| == |h| && |indices| == |old(indices)| && Hole(heap, indices, h, x, i)
        invariant multiset(h) == multiset(old(heap)) && OrderedBut(h, lt, i, from) && ParentBefore(h, lt, i, from)
        decreases |heap| - i
      {
        var child := if Right(i) < |heap| && lt(heap[Right(i)], heap[Left(i)]) then Right(i) else Left(i);
        HoleChild(heap, indices, h, lt, x, i);
        if !lt(heap[child], x) {
          break;
        }
        DownStep(h, lt, i, from);
        Pull(i, child, x, h);
        h := Swap(h, i, child);
        i := child;
      }
      HoleFilled(heap, indices, h, x, i);
      DownDone(h, lt, i, from);
      heap := heap[i := x];
      indices := indices[x := i];
    }

    /** `decrease`: the element `n` may have moved towards the front of the order. */
    method Decrease(n: nat)
      requires StrictWeak(lt) && Inverse(heap, indices) && InHeap(n)
      requires OrderedBut(heap, lt, indices[n], 0) && ChildrenAfter(heap, lt, indices[n])
      modifies this`heap, this`indices
      ensures Valid() && multiset(heap) == multiset(old(heap))
    {
      var at := PercolateUp(indices[n]);
    }

    /** `increase_`: the element `n` may have moved towards the end of the order. */
    method Increase(n: nat)
      requires StrictWeak(lt) && Inverse(heap, indices) && InHeap(n)
      requires OrderedBut(heap, lt, indices[n], 0) && ParentBefore(heap, lt, indices[n], 0)
      modifies this`heap, this`indices
      ensures Valid() && multiset(heap) == multiset(old(heap))
    {
      PercolateDown(indices[n], 0);
    }

    method Insert(n: nat)
      requires Valid() && !InHeap(n) && n < NOWHERE && |heap| + 1 < NOWHERE
      modifies this`heap, this`indices
      ensures Valid() && multiset(heap) == multiset(old(heap)) + multiset{n}
      ensures |indices| == if |old(indices)| < n + 1 then n + 1 else |old(indices)|
    {
      if |indices| < n + 1 {
        indices := indices + seq(n + 1 - |indices|, _ => NOWHERE);
      }
      ghost var w := indices;
      indices := indices[n := |heap|];
      heap := heap + [n];
      Appended(old(heap), w, lt, n);
      var at := PercolateUp(indices[n]);
    }

    /** The element that comes out is before no other. */
    method RemoveMin() returns (x: nat)
      requires Valid() && |heap| > 0
      modifies this`heap, this`indices
      ensures Valid() && multiset(heap) == multiset(old(heap)) - multiset{x}
      ensures x in old(heap) && x !in heap && forall y :: y in old(heap) ==> !lt(y, x)
    {
      Least(heap, lt);
      RootOut(heap, indices, lt);
      x := heap[0];
      heap := heap[0 := heap[|heap| - 1]];
      indices := indices[heap[0] := 0];
      indices := indices[x := NOWHERE];
      heap := heap[..|heap| - 1];
      assert heap == LastToRoot(old(heap));
      if |heap| > 1 {
        PercolateDown(0, 0);
      }
      assert x !in multiset(heap);
    }

    method Clear()
      requires Valid()
      modifies this`heap, this`indices
      ensures Valid() && heap == [] && forall n: nat :: !InHeap(n)
    {
      for i := 0 to |heap|
        invariant |indices| == |old(indices)| && heap == old(heap)
        invariant forall x :: 0 <= x < |indices| && indices[x] != NOWHERE ==> indices[x] == old(indices)[x] >= i
      {
        assert old(indices)[heap[i]] == i;
        indices := indices[heap[i] := NOWHERE];
      }
      heap := [];
    }

    /** `update`: inserts `n`, or repairs the heap after any change of its place in the order. */
    method Update(n: nat)
      requires StrictWeak(lt) && Inverse(heap, indices) && n < NOWHERE && |heap| + 1 < NOWHERE
      requires if InHeap(n) then OrderedBut(heap, lt, indices[n], 0) else Ordered(heap, lt)
      modifies this`heap, this`indices
      ensures Valid() && multiset(heap) == multiset(old(heap)) + if old(InHeap(n)) then multiset{} else multiset{n}
    {
      if !InHeap(n) {
        Insert(n);
      } else {
        var at := PercolateUp(indices[n]);
        PercolateDown(indices[n], 0);
      }
    }

    /** `filter`: exactly the accepted elements stay; the order is built again from the last parent on. */
    method Filter(filt: nat -> bool)
      requires StrictWeak(lt) && Inverse(heap, indices)
      modifies this`heap, this`indices
      ensures Valid() && forall x: nat :: x in heap <==> x in old(heap) && filt(x)
    {
      Compact(filt);
      ghost var kept := heap;
      var i := |heap| / 2 - 1;
      LeavesOrdered(heap, lt, i + 1);
      while i >= 0
        invariant -1 <= i <= |heap| / 2 - 1 && |heap| == |kept| && multiset(heap) == multiset(kept)
        invariant Inverse(heap, indices) && OrderedFrom(heap, lt, i + 1)
      {
        BelowOrdered(heap, lt, i);
        PercolateDown(i, i);
        i := i - 1;
      }
      forall x: nat ensures x in heap <==> x in kept {
        assert x in multiset(heap) <==> x in multiset(kept);
      }
    }

    /** The accepted elements move to the front. */
    method Compact(filt: nat -> bool)
      requires Inverse(heap, indices)
      modifies this`heap, this`indices
      ensures Inverse(heap, indices) && forall x: nat :: x in heap <==> x in old(heap) && filt(x)
    {
      ghost var h := heap;
      var i, j := 0, 0;
      while i != |heap|
        invariant 0 <= j <= i <= |heap| == |h| && Compacting(h, heap, indices, filt, j, i)
      {
        CompactStep(h, heap, indices, filt, j, i);
        if filt(heap[i]) {
          heap := heap[j := heap[i]];
          indices := indices[heap[i] := j];
          j := j + 1;
        } else {
          indices := indices[heap[i] := NOWHERE];
        }
        i := i + 1;
      }
      CompactDone(h, heap, indices, filt, j);
      heap := heap[..j];
    }
  }

  /** The accepted ones of the first `i` elements are at the first `j` places. */
  ghost predicate Compacting(h: seq<nat>, heap: seq<nat>, w: seq<nat>, filt: nat -> bool, j: nat, i: nat) {
    && j <= i <= |h| == |heap| < NOWHERE && heap[i..] == h[i..]
    && (forall k :: 0 <= k < j ==> heap[k] in h[..i] && filt(heap[k]))
    && (forall k :: 0 <= k < i && filt(h[k]) ==> h[k] in heap[..j])
    && Places(h, heap, w, j, i)
  }

  ghost predicate Places(h: seq<nat>, heap: seq<nat>, w: seq<nat>, j: nat, i: nat)
    requires j <= i <= |h| == |heap|
  {
    && (forall k :: 0 <= k < j ==> heap[k] < |w| && w[heap[k]] == k)
    && (forall k :: i <= k < |h| ==> h[k] < |w| && w[h[k]] == k)
    && (forall x :: 0 <= x < |w| && w[x] != NOWHERE ==>
        w[x] < |h| && (if w[x] < j then heap[w[x]] == x else w[x] >= i && h[w[x]] == x))
  }

  lemma CompactPlaces(h: seq<nat>, heap: seq<nat>, w: seq<nat>, j: nat, i: nat)
    requires j <= i < |h| == |heap| < NOWHERE && heap[i] == h[i] && Places(h, heap, w, j, i)
    ensures h[i] < |w|
    ensures Places(h, heap[j := h[i]], w[h[i] := j], j + 1, i + 1)
    ensures Places(h, heap, w[h[i] := NOWHERE], j, i + 1)
  {
  }

  lemma CompactStep(h: seq<nat>, heap: seq<nat>, w: seq<nat>, filt: nat -> bool, j: nat, i: nat)
    requires i < |h| && Compacting(h, heap, w, filt, j, i)
    ensures heap[i] == h[i] < |w| && heap[j := heap[i]][i] == heap[i]
    ensures filt(h[i]) ==> Compacting(h, heap[j := h[i]], w[h[i] := j], filt, j + 1, i + 1)
    ensures !filt(h[i]) ==> Compacting(h, heap, w[h[i] := NOWHERE], filt, j, i + 1)
  {
    assert heap[i] == heap[i..][0] && h[i] == h[i..][0];
    assert heap[i + 1..] == heap[i..][1..] && h[i + 1..] == h[i..][1..];
    assert h[..i + 1] == h[..i] + [h[i]];
    CompactPlaces(h, heap, w, j, i);
    if filt(h[i]) {
      assert heap[j := h[i]][..j + 1] == heap[..j] + [h[i]];
      assert heap[j := h[i]][i + 1..] == heap[i + 1..];
    }
  }

  lemma CompactDone(h: seq<nat>, heap: seq<nat>, w: seq<nat>, filt: nat -> bool, j: nat)
    requires Compacting(h, heap, w, filt, j, |h|)
    ensures Inverse(heap[..j], w) && forall x: nat :: x in heap[..j] <==> x in h && filt(x)
  {
    assert h[..|h|] == h;
    forall x: nat | x in h && filt(x) ensures x in heap[..j] {
      var k :| 0 <= k < |h| && h[k] == x;
    }
    forall x: nat | x in heap[..j] ensures x in h && filt(x) {
      var k :| 0 <= k < j && heap[k] == x;
    }
  }

  lemma Appended(h: seq<nat>, w: seq<nat>, lt: Order, n: nat)
    requires StrictWeak(lt) && Ordered(h, lt) && Inverse(h, w) && n < |w| && w[n] == NOWHERE && |h| + 1 < NOWHERE
    ensures Inverse(h + [n], w[n := |h|]) && OrderedBut(h + [n], lt, |h|, 0) && ChildrenAfter(h + [n], lt, |h|)
  {
    var h' := h + [n];
    forall k: nat | 0 < k < |h'| && k != |h| ensures !lt(h'[k], h'[Parent(k)]) {
      assert h'[k] == h[k] && h'[Parent(k)] == h[Parent(k)];
    }
  }

  lemma Least(h: seq<nat>, lt: Order)
    requires StrictWeak(lt) && Ordered(h, lt) && |h| > 0
    ensures forall y :: y in h ==> !lt(y, h[0])
  {
    forall y | y in h ensures !lt(y, h[0]) {
      var k :| 0 <= k < |h| && h[k] == y;
      RootLeast(h, lt, k);
    }
  }

  /** The last element takes the place of the root. */
  function LastToRoot(h: seq<nat>): (r: seq<nat>)
    requires |h| > 0
    ensures |r| == |h| - 1
  {
    h[0 := h[|h| - 1]][..|h| - 1]
  }

  lemma LastToRootBag(h: seq<nat>)
    requires |h| > 0
    ensures multiset(LastToRoot(h)) == multiset(h) - multiset{h[0]}
  {
    var last := |h| - 1;
    if last > 0 {
      var mid := h[1..last];
      assert LastToRoot(h) == [h[last]] + mid;
      assert h == [h[0]] + mid + [h[last]];
      assert multiset([h[0]] + mid + [h[last]]) == multiset{h[0]} + multiset(mid) + multiset{h[last]};
    } else {
      assert h == [h[0]];
    }
  }

  lemma RootOutElements(h: seq<nat>, w: seq<nat>)
    requires Inverse(h, w) && |h| > 0
    ensures h[0] !in LastToRoot(h)
  {
    var h' := LastToRoot(h);
    assert w[h[0]] == 0;
    forall k | 0 <= k < |h'| ensures h'[k] != h[0] {
      assert w[h[if k == 0 then |h| - 1 else k]] == if k == 0 then |h| - 1 else k;
    }
  }

  lemma RootOutInverse(h: seq<nat>, w: seq<nat>)
    requires Inverse(h, w) && |h| > 0
    ensures h[|h| - 1] < |w| && h[0] < |w|
    ensures Inverse(LastToRoot(h), w[h[|h| - 1] := 0][h[0] := NOWHERE])
  {
  }

  lemma RootOut(h: seq<nat>, w: seq<nat>, lt: Order)
    requires StrictWeak(lt) && Ordered(h, lt) && Inverse(h, w) && |h| > 0
    ensures Inverse(LastToRoot(h), w[h[|h| - 1] := 0][h[0] := NOWHERE])
    ensures OrderedBut(LastToRoot(h), lt, 0, 0) && (|h| <= 2 ==> Ordered(LastToRoot(h), lt))
    ensures multiset(LastToRoot(h)) == multiset(h) - multiset{h[0]} && h[0] !in LastToRoot(h)
  {
    var h' := LastToRoot(h);
    LastToRootBag(h);
    RootOutElements(h, w);
    RootOutInverse(h, w);
    forall k: nat | 0 < k < |h'| && Parent(k) != 0 ensures !lt(h'[k], h'[Parent(k)]) {
      assert h'[k] == h[k] && h'[Parent(k)] == h[Parent(k)];
    }
  }

  lemma LeavesOrdered(h: seq<nat>, lt: Order, from: nat)
    requires from == |h| / 2
    ensures OrderedFrom(h, lt, from)
  {
    forall k: nat | 0 < k < |h| ensures Parent(k) < from {
    }
  }

  lemma BelowOrdered(h: seq<nat>, lt: Order, i: nat)
    requires OrderedFrom(h, lt, i + 1)
    ensures OrderedBut(h, lt, i, i) && ParentBefore(h, lt, i, i)
  {
  }

  // ----- the debug check -----

  /** `heapProperty(i)`: the recursive check of the subtree at `i` and its edge to the parent. */
  predicate HeapProperty(h: seq<nat>, lt: Order, i: nat)
    decreases |h| - i
  {
    i >= |h| || ((i == 0 || !lt(h[i], h[Parent(i)])) && HeapProperty(h, lt, Left(i)) && HeapProperty(h, lt, Right(i)))
  }

  predicate Under(k: nat, i: nat)
    decreases k
  {
    k == i || (k > i && Under(Parent(k), i))
  }

  lemma {:induction false} UnderSplits(k: nat, i: nat)
    ensures Under(k, i) <==> k == i || Under(k, Left(i)) || Under(k, Right(i))
    decreases k
  {
    if k > 0 {
      UnderSplits(Parent(k), i);
    }
  }

  /** The check finds exactly the disorder in its subtree. */
  lemma {:induction false} CheckIsExact(h: seq<nat>, lt: Order, i: nat)
    ensures HeapProperty(h, lt, i) <==> forall k: nat :: 0 < k < |h| && Under(k, i) ==> !lt(h[k], h[Parent(k)])
    decreases |h| - i
  {
    if i < |h| {
      CheckIsExact(h, lt, Left(i));
      CheckIsExact(h, lt, Right(i));
      forall k: nat ensures Under(k, i) <==> k == i || Under(k, Left(i)) || Under(k, Right(i)) {
        UnderSplits(k, i);
      }
    }
  }

  lemma {:induction false} AllUnderRoot(k: nat)
    ensures Under(k, 0)
  {
    if k > 0 {
      AllUnderRoot(Parent(k));
    }
  }

  /** From the root on the check means order; the public check starts at 1 and looks at the left half only. */
  lemma CheckFromRoot(h: seq<nat>, lt: Order)
    ensures HeapProperty(h, lt, 0) <==> Ordered(h, lt)
    ensures Ordered(h, lt) ==> HeapProperty(h, lt, 1)
    ensures HeapProperty([1, 2, 0], (x: nat, y: nat) => x < y, 1) && !Ordered([1, 2, 0], (x: nat, y: nat) => x < y)
  {
    CheckIsExact(h, lt, 0);
    CheckIsExact(h, lt, 1);
    forall k: nat ensures Under(k, 0) {
      AllUnderRoot(k);
    }
    var less: Order := (x: nat, y: nat) => x < y;
    assert Parent(2) == 0 && less([1, 2, 0][2], [1, 2, 0][0]);
  }

  lemma NotBefore(h: seq<nat>, lt: Order, i: nat)
    requires i < |h| && (i == 0 || !lt(h[i], h[Parent(i)]))
    ensures ParentBefore(h, lt, i, 0)
  {
  }
}
