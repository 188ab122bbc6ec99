/**
 `init_keymap` and `init_outputmap`: one pass over the sorted nodes finds, for each
 node, the key inputs it depends on, and one pass backwards the outputs that depend
 on it.  What a node does not depend on cannot change its value.
 */
module DependMaps {
  import opened Cnf
  import opened Netlist
  import opened ConstProp
  import CC = CycleCheck
  import TS = TopoSort

  /** A path of fanins leads from `n` to `a`. */
  ghost predicate Depends(ns: seq<Node>, n: nat, a: nat) {
    exists path :: Leads(ns, path, n, a)
  }

  ghost predicate Leads(ns: seq<Node>, path: seq<nat>, n: nat, a: nat) {
    |path| > 0 && CC.IsPath(ns, path) && path[0] == n && path[|path| - 1] == a
  }

  lemma DependsOnSelf(ns: seq<Node>, n: nat)
    requires n < |ns|
    ensures Depends(ns, n, n)
  {
    assert Leads(ns, [n], n, n);
  }

  /** A node depends on itself and on what its fanins depend on, and on nothing else. */
  lemma DependsDown(ns: seq<Node>, n: nat, a: nat)
    requires n < |ns|
    ensures Depends(ns, n, a) <==> n == a || exists f: nat :: Feeds(ns, f, n) && Depends(ns, f, a)
  {
    if path :| Leads(ns, path, n, a) {
      if |path| > 1 {
        assert Feeds(ns, path[0 + 1], path[0]);
        TailLeads(ns, path, n, a);
      }
    }
    if f: nat :| Feeds(ns, f, n) && Depends(ns, f, a) {
      var path :| Leads(ns, path, f, a);
      FrontLeads(ns, n, path, f, a);
    }
    DependsOnSelf(ns, n);
  }

  lemma TailLeads(ns: seq<Node>, path: seq<nat>, n: nat, a: nat)
    requires Leads(ns, path, n, a) && |path| > 1
    ensures Leads(ns, path[1..], path[1], a)
  {
    var r := path[1..];
    assert forall t :: 0 <= t < |r| ==> r[t] == path[t + 1];
    forall t | 0 <= t < |r| - 1
      ensures Feeds(ns, r[t + 1], r[t])
    {
      var u := t + 1;
      assert Feeds(ns, path[u + 1], path[u]);
    }
  }

  lemma FrontLeads(ns: seq<Node>, n: nat, path: seq<nat>, f: nat, a: nat)
    requires Leads(ns, path, f, a) && Feeds(ns, f, n)
    ensures Leads(ns, [n] + path, n, a)
  {
    var r := [n] + path;
    forall t | 0 <= t < |r| - 1
      ensures Feeds(ns, r[t + 1], r[t])
    {
      if t > 0 {
        var u := t - 1;
        assert Feeds(ns, path[u + 1], path[u]);
      }
    }
  }

  /** A node is needed by itself and by what needs its fanouts, and by nothing else. */
  lemma DependsUp(ns: seq<Node>, n: nat, o: nat)
    requires n < |ns|
    ensures Depends(ns, o, n) <==> o == n || exists g: nat :: Feeds(ns, n, g) && Depends(ns, o, g)
  {
    if path :| Leads(ns, path, o, n) {
      if |path| > 1 {
        var u := |path| - 2;
        assert Feeds(ns, path[u + 1], path[u]);
        HeadLeads(ns, path, o, n);
      }
    }
    if g: nat :| Feeds(ns, n, g) && Depends(ns, o, g) {
      var path :| Leads(ns, path, o, g);
      BackLeads(ns, path, o, g, n);
    }
    DependsOnSelf(ns, n);
  }

  lemma HeadLeads(ns: seq<Node>, path: seq<nat>, o: nat, n: nat)
    requires Leads(ns, path, o, n) && |path| > 1
    ensures Leads(ns, path[..|path| - 1], o, path[|path| - 2])
  {
    var r := path[..|path| - 1];
    forall t | 0 <= t < |r| - 1
      ensures Feeds(ns, r[t + 1], r[t])
    {
      assert Feeds(ns, path[t + 1], path[t]);
    }
  }

  lemma BackLeads(ns: seq<Node>, path: seq<nat>, o: nat, g: nat, n: nat)
    requires Leads(ns, path, o, g) && Feeds(ns, n, g) && n < |ns|
    ensures Leads(ns, path + [n], o, n)
  {
    var r := path + [n];
    forall t | 0 <= t < |r| - 1
      ensures Feeds(ns, r[t + 1], r[t])
    {
      assert t < |path| - 1 ==> Feeds(ns, path[t + 1], path[t]);
    }
  }

  // ----- what dependence means -----

  /** Values that satisfy all gates but perhaps `a`, and agree on all inputs but perhaps `a`. */
  ghost predicate DifferOnlyFrom(c: Ckt, w: Model, w': Model, a: nat)
    requires WellFormed(c)
  {
    forall n :: 0 <= n < |c.nodes| && n != a ==>
      if c.nodes[n].Gate? then GateHolds(c, w, n) && GateHolds(c, w', n) else Bit(w, n) == Bit(w', n)
  }

  /** A change at `a` reaches only the nodes that depend on `a`. */
  lemma {:induction false} Unaffected(c: Ckt, rank: seq<nat>, w: Model, w': Model, a: nat, n: nat)
    requires WellFormed(c) && IsRank(c, rank) && DifferOnlyFrom(c, w, w', a)
    requires n < |c.nodes| && !Depends(c.nodes, n, a)
    ensures Bit(w, n) == Bit(w', n)
    decreases rank[n]
  {
    DependsOnSelf(c.nodes, n);
    if c.nodes[n].Gate? {
      var f := c.nodes[n].fanins;
      forall k | 0 <= k < |f|
        ensures Bit(w, f[k]) == Bit(w', f[k])
      {
        assert f[k] in f && Feeds(c.nodes, f[k], n);
        DependsDown(c.nodes, n, a);
        Unaffected(c, rank, w, w', a, f[k]);
      }
      assert Vals(w, f) == Vals(w', f);
      assert GateHolds(c, w, n) && GateHolds(c, w', n);
    }
  }

  // ----- the maps -----

  /** Every node is in the list, fanins first. */
  ghost predicate Sorted(ns: seq<Node>, order: seq<nat>) {
    && TS.FaninsFirst(ns, order) && CC.InRange(ns) && (forall n: nat :: n in order <==> n < |ns|)
    && (forall p, q :: 0 <= p < q < |order| ==> order[p] != order[q])
  }

  /** The node list sorted by `topo_sort` is such a list. */
  lemma TopoSorted(ns: seq<Node>, rank: seq<nat>, list: seq<nat>, order: seq<nat>)
    requires Ranked(ns, rank, MaxOf(rank)) && TS.FaninsFirst(ns, order) && multiset(order) == multiset(list)
    requires NoDup(list) && forall n: nat :: n in list <==> n < |ns|
    ensures Sorted(ns, order)
  {
    Rearranged(list, order);
  }

  lemma Rearranged(list: seq<nat>, order: seq<nat>)
    requires multiset(order) == multiset(list) && NoDup(list)
    ensures NoDup(order) && forall n: nat :: n in order <==> n in list
  {
    forall n: nat
      ensures n in order <==> n in list
    {
      assert n in order <==> n in multiset(order);
      assert n in list <==> n in multiset(list);
    }
    forall p, q | 0 <= p < q < |order|
      ensures order[p] != order[q]
    {
      OnceEach(list, order[q]);
      assert order == order[..q] + [order[q]] + order[q + 1..];
      assert order[p] in order[..q] && (order[p] in multiset(order[..q]));
    }
  }

  lemma {:induction false} OnceEach(list: seq<nat>, x: nat)
    requires NoDup(list)
    ensures multiset(list)[x] <= 1
  {
    if list != [] {
      var tail := list[1..];
      assert list == [list[0]] + tail;
      assert forall k :: 0 <= k < |tail| ==> tail[k] == list[k + 1];
      OnceEach(tail, x);
      assert list[0] in tail <==> list[0] in multiset(tail);
    }
  }

  ghost predicate Bits(m: seq<seq<bool>>, n: nat, width: nat) {
    |m| == n && forall k :: 0 <= k < n ==> |m[k]| == width
  }

  /** Row `n` of the key map says which keys node `n` depends on. */
  ghost predicate KeyRow(ns: seq<Node>, keys: seq<nat>, row: seq<bool>, n: nat) {
    |row| == |keys| && forall i :: 0 <= i < |keys| ==> (row[i] <==> Depends(ns, n, keys[i]))
  }

  /** Row `n` of the output map says which outputs depend on node `n`. */
  ghost predicate OutputRow(ns: seq<Node>, outs: seq<nat>, row: seq<bool>, n: nat) {
    |row| == |outs| && forall i :: 0 <= i < |outs| ==> (row[i] <==> Depends(ns, outs[i], n))
  }

  predicate StartRow(list: seq<nat>, row: seq<bool>, n: nat) {
    |row| == |list| && forall i :: 0 <= i < |list| ==> (row[i] <==> n == list[i])
  }

  /** `or_bitmap`. */
  method OrBitmap(v1: seq<bool>, v2: seq<bool>) returns (r: seq<bool>)
    requires |v1| == |v2|
    ensures |r| == |v1| && forall i :: 0 <= i < |r| ==> r[i] == (v1[i] || v2[i])
  {
    r := v1;
    for i := 0 to |v2|
      invariant |r| == |v1| && forall j :: 0 <= j < |r| ==> r[j] == (v1[j] || (j < i && v2[j]))
    {
      if v2[i] {
        r := r[i := true];
      }
    }
  }

  /** All bits cleared, and one set per listed node. */
  method StartMap(size: nat, list: seq<nat>) returns (m: seq<seq<bool>>)
    requires forall i :: 0 <= i < |list| ==> list[i] < size
    ensures Bits(m, size, |list|) && forall n :: 0 <= n < size ==> StartRow(list, m[n], n)
  {
    m := seq(size, _ => seq(|list|, _ => false));
    for i := 0 to |list|
      invariant Bits(m, size, |list|)
      invariant forall n, j :: 0 <= n < size && 0 <= j < |list| ==> (m[n][j] <==> j < i && n == list[j])
    {
      m := m[list[i] := m[list[i]][i := true]];
    }
  }

  lemma InList(ns: seq<Node>, order: seq<nat>)
    requires Sorted(ns, order)
    ensures forall p :: 0 <= p < |order| ==> order[p] < |ns|
  {
    assert forall p :: 0 <= p < |order| ==> order[p] in order;
  }

  /** `init_keymap`. */
  method InitKeymap(ns: seq<Node>, order: seq<nat>, keys: seq<nat>) returns (keymap: seq<seq<bool>>)
    requires Sorted(ns, order) && forall i :: 0 <= i < |keys| ==> keys[i] < |ns|
    ensures |keymap| == |ns| && forall n: nat :: n < |ns| ==> KeyRow(ns, keys, keymap[n], n)
  {
    keymap := StartMap(|ns|, keys);
    InList(ns, order);
    hide Depends;
    for p := 0 to |order|
      invariant Bits(keymap, |ns|, |keys|)
      invariant forall q :: 0 <= q < p ==> order[q] < |ns| && KeyRow(ns, keys, keymap[order[q]], order[q])
      invariant forall q :: p <= q < |order| ==> order[q] < |ns| && StartRow(keys, keymap[order[q]], order[q])
    {
      var n := order[p];
      assert n in order;
      var row := KeymapRow(ns, order, keys, keymap, p);
      keymap := keymap[n := row];
    }
    forall n: nat | n < |ns|
      ensures KeyRow(ns, keys, keymap[n], n)
    {
      assert n in order;
      var q :| 0 <= q < |order| && order[q] == n;
    }
  }

  /** The row of one node, from the rows of its fanins. */
  method KeymapRow(
      ns: seq<Node>, order: seq<nat>, keys: seq<nat>, keymap: seq<seq<bool>>, p: nat) returns (row: seq<bool>)
    requires Sorted(ns, order) && Bits(keymap, |ns|, |keys|) && p < |order| && order[p] < |ns|
    requires forall q :: 0 <= q < p ==> order[q] < |ns| && KeyRow(ns, keys, keymap[order[q]], order[q])
    requires StartRow(keys, keymap[order[p]], order[p])
    ensures KeyRow(ns, keys, row, order[p])
  {
    hide Depends;
    var n := order[p];
    row := keymap[n];
    if ns[n].Gate? {
      for j := 0 to |ns[n].fanins|
        invariant |row| == |keys|
        invariant forall i :: 0 <= i < |keys| ==>
          (row[i] <==> n == keys[i] || DependsAmong(ns, ns[n].fanins[..j], keys[i]))
      {
        var f := ns[n].fanins[j];
        FaninEarlier(ns, order, p, f);
        AmongMore(ns, ns[n].fanins, j);
        row := OrBitmap(row, keymap[f]);
      }
      assert ns[n].fanins[..|ns[n].fanins|] == ns[n].fanins;
    }
    forall i | 0 <= i < |keys|
      ensures row[i] <==> Depends(ns, n, keys[i])
    {
      DependsDown(ns, n, keys[i]);
    }
  }

  ghost predicate DependsAmong(ns: seq<Node>, fs: seq<nat>, a: nat) {
    exists f :: f in fs && Depends(ns, f, a)
  }

  lemma AmongMore(ns: seq<Node>, fs: seq<nat>, j: nat)
    requires j < |fs|
    ensures forall a: nat :: DependsAmong(ns, fs[..j + 1], a) <==> DependsAmong(ns, fs[..j], a) || Depends(ns, fs[j], a)
  {
    hide Depends;
    assert fs[..j + 1] == fs[..j] + [fs[j]];
  }

  lemma FaninEarlier(ns: seq<Node>, order: seq<nat>, p: nat, f: nat)
    requires Sorted(ns, order) && p < |order| && Feeds(ns, f, order[p])
    ensures f < |ns| && exists q :: 0 <= q < p && order[q] == f
  {
    assert f in order;
    var q :| 0 <= q < |order| && order[q] == f;
  }

  lemma FanoutLater(ns: seq<Node>, order: seq<nat>, p: nat, g: nat)
    requires Sorted(ns, order) && p < |order| && Feeds(ns, order[p], g)
    ensures g < |ns| && exists q :: p < q < |order| && order[q] == g
  {
    assert g in order;
    var q :| 0 <= q < |order| && order[q] == g;
  }

  /** `topo_sort` and then `init_keymap`, as the encoder does after each insertion. */
  method SortedKeymap(t: TS.SortedCkt, keys: seq<nat>, ghost rank: seq<nat>) returns (keymap: seq<seq<bool>>)
    requires t.Sortable(rank) && NoDup(t.nodeList) && forall i :: 0 <= i < |keys| ==> keys[i] < |t.nodes|
    modifies t
    ensures |keymap| == |t.nodes| && forall n: nat :: n < |t.nodes| ==> KeyRow(t.nodes, keys, keymap[n], n)
  {
    t.TopoSort(rank);
    TopoSorted(t.nodes, rank, t.nodeList, t.nodesSorted);
    keymap := InitKeymap(t.nodes, t.nodesSorted, keys);
  }

  /** Two valuations that differ in one key bit agree on every node whose row in the key map lacks that key. */
  lemma KeymapSound(c: Ckt, v: Model, v': Model, row: seq<bool>, i: nat, n: nat)
    requires WellFormed(c) && Acyclic(c) && IsVal(c, v) && IsVal(c, v') && i < |c.keyInputs| && n < |c.nodes|
    requires forall m :: 0 <= m < |c.nodes| && !c.nodes[m].Gate? && m != c.keyInputs[i] ==> Bit(v, m) == Bit(v', m)
    requires KeyRow(c.nodes, c.keyInputs, row, n) && !row[i]
    ensures Bit(v, n) == Bit(v', n)
  {
    var rank :| IsRank(c, rank);
    forall m | 0 <= m < |c.nodes|
      ensures GateHolds(c, v, m) && GateHolds(c, v', m)
    {
    }
    Unaffected(c, rank, v, v', c.keyInputs[i], n);
  }

  /** `init_outputmap`, backwards over the sorted nodes and along the fanouts. */
  method InitOutputmap(
      ns: seq<Node>, fo: seq<seq<nat>>, order: seq<nat>, outs: seq<nat>) returns (outmap: seq<seq<bool>>)
    requires Sorted(ns, order) && (forall i :: 0 <= i < |outs| ==> outs[i] < |ns|)
    requires |fo| == |ns| && forall a: nat, g: nat :: a < |ns| ==> (g in fo[a] <==> Feeds(ns, a, g))
    ensures |outmap| == |ns| && forall n: nat :: n < |ns| ==> OutputRow(ns, outs, outmap[n], n)
  {
    outmap := StartMap(|ns|, outs);
    InList(ns, order);
    hide Depends;
    var p: nat := |order|;
    while p > 0
      invariant p <= |order| && Bits(outmap, |ns|, |outs|)
      invariant forall q :: p <= q < |order| ==> order[q] < |ns| && OutputRow(ns, outs, outmap[order[q]], order[q])
      invariant forall q :: 0 <= q < p ==> order[q] < |ns| && StartRow(outs, outmap[order[q]], order[q])
    {
      p := p - 1;
      var n := order[p];
      assert n in order;
      var row := OutmapRow(ns, fo, order, outs, outmap, p);
      outmap := outmap[n := row];
    }
    forall n: nat | n < |ns|
      ensures OutputRow(ns, outs, outmap[n], n)
    {
      assert n in order;
      var q :| 0 <= q < |order| && order[q] == n;
    }
  }

  /** The row of one node, from the rows of its fanouts. */
  method OutmapRow(ns: seq<Node>, fo: seq<seq<nat>>, order: seq<nat>, outs: seq<nat>, outmap: seq<seq<bool>>, p: nat)
    returns (row: seq<bool>)
    requires Sorted(ns, order) && Bits(outmap, |ns|, |outs|) && p < |order| && order[p] < |ns| == |fo|
    requires forall g: nat :: g in fo[order[p]] <==> Feeds(ns, order[p], g)
    requires forall q :: p < q < |order| ==> order[q] < |ns| && OutputRow(ns, outs, outmap[order[q]], order[q])
    requires StartRow(outs, outmap[order[p]], order[p])
    ensures OutputRow(ns, outs, row, order[p])
  {
    hide Depends;
    var n := order[p];
    row := outmap[n];
    for j := 0 to |fo[n]|
      invariant |row| == |outs|
      invariant forall i :: 0 <= i < |outs| ==> (row[i] <==> n == outs[i] || NeededAmong(ns, fo[n][..j], outs[i]))
    {
      var g := fo[n][j];
      assert g in fo[n];
      FanoutLater(ns, order, p, g);
      NeededMore(ns, fo[n], j);
      row := OrBitmap(row, outmap[g]);
    }
    assert fo[n][..|fo[n]|] == fo[n];
    forall i | 0 <= i < |outs|
      ensures row[i] <==> Depends(ns, outs[i], n)
    {
      DependsUp(ns, n, outs[i]);
    }
  }

  ghost predicate NeededAmong(ns: seq<Node>, gs: seq<nat>, o: nat) {
    exists g :: g in gs && Depends(ns, o, g)
  }

  lemma NeededMore(ns: seq<Node>, gs: seq<nat>, j: nat)
    requires j < |gs|
    ensures forall o: nat :: NeededAmong(ns, gs[..j + 1], o) <==> NeededAmong(ns, gs[..j], o) || Depends(ns, o, gs[j])
  {
    hide Depends;
    assert gs[..j + 1] == gs[..j] + [gs[j]];
  }
}
