/**
 `ckt_t::topo_sort`: levels are raised until every gate is above its fanins, which ends
 exactly because the circuit is acyclic, and the lists are sorted by level.
 */
module TopoSort {
  import opened Netlist
  import opened ConstProp
  import CC = CycleCheck

  // ----- levels -----

  /** What the level of `n` rises to from the levels in `start`: above all fanins, and never lower than it was. */
  ghost function Raised(ns: seq<Node>, rank: seq<nat>, start: seq<int>, n: nat): (r: int)
    requires Ranked(ns, rank, MaxOf(rank)) && n < |ns| == |start|
    decreases rank[n], 1, 0
  {
    if ns[n].Gate? then RaisedBy(ns, rank, start, n, |ns[n].fanins|) else 0
  }

  /** The same for the first `k` fanins only. */
  ghost function RaisedBy(ns: seq<Node>, rank: seq<nat>, start: seq<int>, n: nat, k: nat): (r: int)
    requires Ranked(ns, rank, MaxOf(rank)) && n < |ns| == |start| && ns[n].Gate? && k <= |ns[n].fanins|
    decreases rank[n], 0, k
  {
    if k == 0 then start[n]
    else
      var a := ns[n].fanins[k - 1];
      assert Feeds(ns, a, n);
      var r := RaisedBy(ns, rank, start, n, k - 1);
      var up := 1 + Raised(ns, rank, start, a);
      if r < up then up else r
  }

  /** The level that fanin `j` demands of gate `n`. */
  ghost function OneBelow(ns: seq<Node>, rank: seq<nat>, start: seq<int>, n: nat, j: nat): int
    requires Ranked(ns, rank, MaxOf(rank)) && n < |ns| == |start| && ns[n].Gate? && j < |ns[n].fanins|
  {
    assert Feeds(ns, ns[n].fanins[j], n);
    1 + Raised(ns, rank, start, ns[n].fanins[j])
  }

  lemma {:induction false} RaisedAbove(ns: seq<Node>, rank: seq<nat>, start: seq<int>, n: nat, k: nat)
    requires Ranked(ns, rank, MaxOf(rank)) && n < |ns| == |start| && ns[n].Gate? && k <= |ns[n].fanins|
    ensures start[n] <= RaisedBy(ns, rank, start, n, k)
    ensures forall j :: 0 <= j < k ==> OneBelow(ns, rank, start, n, j) <= RaisedBy(ns, rank, start, n, k)
    ensures RaisedBy(ns, rank, start, n, k) == start[n] ||
      exists j :: 0 <= j < k && RaisedBy(ns, rank, start, n, k) == OneBelow(ns, rank, start, n, j)
    decreases k
  {
    if k > 0 {
      RaisedAbove(ns, rank, start, n, k - 1);
      var r := RaisedBy(ns, rank, start, n, k - 1);
      var up := OneBelow(ns, rank, start, n, k - 1);
      assert RaisedBy(ns, rank, start, n, k) == if r < up then up else r;
    }
  }

  /** All levels when nothing changes any more. */
  ghost function Levels(ns: seq<Node>, rank: seq<nat>, start: seq<int>): (r: seq<int>)
    requires Ranked(ns, rank, MaxOf(rank)) && |ns| == |start|
    ensures |r| == |ns|
  {
    seq(|ns|, n requires 0 <= n < |ns| => Raised(ns, rank, start, n))
  }

  /** Levels on the way: inputs at 0, gates between where they started and where they end. */
  ghost predicate Rising(ns: seq<Node>, rank: seq<nat>, start: seq<int>, level: seq<int>) {
    && Ranked(ns, rank, MaxOf(rank)) && |level| == |start| == |ns|
    && (forall n :: 0 <= n < |ns| ==> level[n] <= Raised(ns, rank, start, n))
    && (forall n :: 0 <= n < |ns| && ns[n].Gate? ==> start[n] <= level[n])
    && (forall n :: 0 <= n < |ns| && !ns[n].Gate? ==> level[n] == 0)
  }

  /** Gate `n` is above the first `k` of its fanins. */
  predicate Above(ns: seq<Node>, level: seq<int>, n: nat, k: nat) {
    n < |ns| == |level| && ns[n].Gate? && forall j :: 0 <= j < k && j < |ns[n].fanins| && ns[n].fanins[j] < |ns| ==>
      level[n] >= 1 + level[ns[n].fanins[j]]
  }

  lemma RiseStep(ns: seq<Node>, rank: seq<nat>, start: seq<int>, level: seq<int>, n: nat, j: nat)
    requires Rising(ns, rank, start, level) && n < |ns| && ns[n].Gate? && j < |ns[n].fanins|
    ensures ns[n].fanins[j] < |ns| && ns[n].fanins[j] != n
    ensures level[n] < 1 + level[ns[n].fanins[j]] ==> Rising(ns, rank, start, level[n := 1 + level[ns[n].fanins[j]]])
    ensures level[n] <= Raised(ns, rank, start, n)
  {
    assert Feeds(ns, ns[n].fanins[j], n);
    RaisedAbove(ns, rank, start, n, |ns[n].fanins|);
    assert OneBelow(ns, rank, start, n, j) <= Raised(ns, rank, start, n);
  }

  /** How far the levels are from their end, all together. */
  function Gap(level: seq<int>, end: seq<int>): int
    requires |level| == |end|
  {
    if level == [] then 0 else end[0] - level[0] + Gap(level[1..], end[1..])
  }

  lemma {:induction false} GapNat(level: seq<int>, end: seq<int>)
    requires |level| == |end| && forall n :: 0 <= n < |level| ==> level[n] <= end[n]
    ensures Gap(level, end) >= 0
  {
    if level != [] {
      GapNat(level[1..], end[1..]);
    }
  }

  lemma {:induction false} GapCloses(level: seq<int>, end: seq<int>, n: nat, x: int)
    requires |level| == |end| && n < |level|
    ensures Gap(level[n := x], end) == Gap(level, end) - (x - level[n])
  {
    if n > 0 {
      GapCloses(level[1..], end[1..], n - 1, x);
      assert level[n := x][1..] == level[1..][n - 1 := x];
    } else {
      assert level[0 := x][1..] == level[1..];
    }
  }

  /** Once every gate is above its fanins, the levels are where they end. */
  lemma {:induction false} RisenAt(ns: seq<Node>, rank: seq<nat>, start: seq<int>, level: seq<int>, n: nat)
    requires Rising(ns, rank, start, level) && n < |ns|
    requires forall g: nat :: IsGate(ns, g) ==> Above(ns, level, g, |ns[g].fanins|)
    ensures level[n] == Raised(ns, rank, start, n)
    decreases rank[n]
  {
    if ns[n].Gate? {
      var f := ns[n].fanins;
      forall j | 0 <= j < |f|
        ensures f[j] < |ns| && level[f[j]] == Raised(ns, rank, start, f[j])
      {
        assert Feeds(ns, f[j], n);
        RisenAt(ns, rank, start, level, f[j]);
      }
      assert IsGate(ns, n) && Above(ns, level, n, |f|);
      RaisedAbove(ns, rank, start, n, |f|);
    }
  }

  /** From fresh levels, the level of a node is the length of the longest path of fanins from it. */
  lemma {:induction false} LevelIsLongestPath(
      ns: seq<Node>, rank: seq<nat>, start: seq<int>, n: nat) returns (path: seq<nat>)
    requires Ranked(ns, rank, MaxOf(rank)) && n < |ns| == |start|
    requires forall g: nat :: IsGate(ns, g) ==> start[g] <= 0 && ns[g].fanins != []
    ensures |path| > 0 && CC.IsPath(ns, path) && path[0] == n && |path| - 1 == Raised(ns, rank, start, n)
    ensures forall p :: |p| > 0 && CC.IsPath(ns, p) && p[0] == n ==> |p| - 1 <= Raised(ns, rank, start, n)
    decreases rank[n]
  {
    forall p | |p| > 0 && CC.IsPath(ns, p) && p[0] == n
      ensures |p| - 1 <= Raised(ns, rank, start, n)
    {
      PathWithin(ns, rank, start, p);
    }
    path := [n];
    if ns[n].Gate? {
      RaisedAbove(ns, rank, start, n, |ns[n].fanins|);
      RaisedNat(ns, rank, start, ns[n].fanins[0], n);
      assert OneBelow(ns, rank, start, n, 0) >= 1;
      var j :| 0 <= j < |ns[n].fanins| && Raised(ns, rank, start, n) == OneBelow(ns, rank, start, n, j);
      var a := ns[n].fanins[j];
      assert Feeds(ns, a, n);
      var rest := LevelIsLongestPath(ns, rank, start, a);
      path := [n] + rest;
    }
  }

  lemma {:induction false} RaisedNat(ns: seq<Node>, rank: seq<nat>, start: seq<int>, a: nat, g: nat)
    requires Ranked(ns, rank, MaxOf(rank)) && |ns| == |start| && Feeds(ns, a, g)
    requires forall h: nat :: IsGate(ns, h) ==> ns[h].fanins != []
    ensures a < |ns| && Raised(ns, rank, start, a) >= 0
    decreases rank[g]
  {
    if ns[a].Gate? {
      var b := ns[a].fanins[0];
      assert b in ns[a].fanins && Feeds(ns, b, a);
      RaisedNat(ns, rank, start, b, a);
      RaisedAbove(ns, rank, start, a, |ns[a].fanins|);
      assert OneBelow(ns, rank, start, a, 0) <= Raised(ns, rank, start, a);
    }
  }

  lemma {:induction false} PathWithin(ns: seq<Node>, rank: seq<nat>, start: seq<int>, p: seq<nat>)
    requires Ranked(ns, rank, MaxOf(rank)) && |ns| == |start| && |p| > 0 && CC.IsPath(ns, p)
    requires forall g: nat :: IsGate(ns, g) ==> ns[g].fanins != []
    ensures p[0] < |ns| && |p| - 1 <= Raised(ns, rank, start, p[0])
    decreases |p|
  {
    if |p| > 1 {
      assert Feeds(ns, p[0 + 1], p[0]);
      var n := p[0];
      var j :| 0 <= j < |ns[n].fanins| && ns[n].fanins[j] == p[1];
      assert forall t :: 0 <= t < |p[1..]| ==> p[1..][t] == p[t + 1];
      assert CC.IsPath(ns, p[1..]) by {
        forall t | 0 <= t < |p[1..]| - 1 ensures Feeds(ns, p[1..][t + 1], p[1..][t]) {
          var u := t + 1;
          assert Feeds(ns, p[u + 1], p[u]);
        }
      }
      PathWithin(ns, rank, start, p[1..]);
      RaisedAbove(ns, rank, start, n, |ns[n].fanins|);
      assert OneBelow(ns, rank, start, n, j) <= Raised(ns, rank, start, n);
    } else if ns[p[0]].Gate? {
      var n := p[0];
      var b := ns[n].fanins[0];
      assert b in ns[n].fanins && Feeds(ns, b, n);
      RaisedNat(ns, rank, start, b, n);
      RaisedAbove(ns, rank, start, n, |ns[n].fanins|);
      assert OneBelow(ns, rank, start, n, 0) <= Raised(ns, rank, start, n);
    }
  }

  /** The loop could not end on a circuit with a cycle: levels above all fanins are an order. */
  lemma SettledIsOrdered(ns: seq<Node>, level: seq<int>)
    requires CC.InRange(ns) && |level| == |ns| && forall g: nat :: IsGate(ns, g) ==> Above(ns, level, g, |ns[g].fanins|)
    ensures Orderable(ns)
  {
    var low := Lowest(level);
    var rank: seq<nat> := seq(|ns|, n requires 0 <= n < |ns| => level[n] - low);
    forall a: nat, g: nat | Feeds(ns, a, g)
      ensures a < |ns| && rank[a] < rank[g]
    {
      var j :| 0 <= j < |ns[g].fanins| && ns[g].fanins[j] == a;
      assert Above(ns, level, g, |ns[g].fanins|);
    }
    assert Ranked(ns, rank, MaxOf(rank));
  }

  ghost function Lowest(level: seq<int>): (m: int)
    ensures forall n :: 0 <= n < |level| ==> m <= level[n]
  {
    if level == [] then 0
    else
      var r := Lowest(level[..|level| - 1]);
      if level[|level| - 1] < r then level[|level| - 1] else r
  }

  // ----- sorted lists -----

  /** Wherever one of the nodes feeds another, it comes first. */
  ghost predicate FaninsFirst(ns: seq<Node>, order: seq<nat>) {
    forall p, q :: 0 <= p < |order| && 0 <= q < |order| && Feeds(ns, order[p], order[q]) ==> p < q
  }

  predicate ByLevel(level: seq<int>, list: seq<nat>) {
    && (forall p :: 0 <= p < |list| ==> list[p] < |level|)
    && (forall p, q :: 0 <= p < q < |list| ==> level[list[p]] <= level[list[q]])
  }

  /** `n` goes in before the first node of a higher level. */
  function Insert(level: seq<int>, r: seq<nat>, n: nat): seq<nat>
    requires n < |level| && forall p :: 0 <= p < |r| ==> r[p] < |level|
  {
    if r == [] || level[n] < level[r[0]] then [n] + r else [r[0]] + Insert(level, r[1..], n)
  }

  lemma {:induction false} InsertBag(level: seq<int>, r: seq<nat>, n: nat)
    requires n < |level| && forall p :: 0 <= p < |r| ==> r[p] < |level|
    ensures multiset(Insert(level, r, n)) == multiset(r) + multiset{n}
  {
    if r != [] && level[n] >= level[r[0]] {
      InsertBag(level, r[1..], n);
      assert r == [r[0]] + r[1..];
    }
  }

  lemma {:induction false} InsertSorts(level: seq<int>, r: seq<nat>, n: nat)
    requires n < |level| && ByLevel(level, r)
    ensures ByLevel(level, Insert(level, r, n))
  {
    if r == [] || level[n] < level[r[0]] {
      HeadFirst(level, n, r);
    } else {
      TailByLevel(level, r);
      InsertSorts(level, r[1..], n);
      var rest := Insert(level, r[1..], n);
      assert rest != [] && (rest[0] == n || (|r| > 1 && rest[0] == r[1]));
      HeadFirst(level, r[0], rest);
    }
  }

  lemma TailByLevel(level: seq<int>, r: seq<nat>)
    requires ByLevel(level, r) && r != []
    ensures ByLevel(level, r[1..])
  {
    var t := r[1..];
    assert forall p :: 0 <= p < |t| ==> t[p] == r[p + 1];
  }

  lemma HeadFirst(level: seq<int>, n: nat, r: seq<nat>)
    requires n < |level| && ByLevel(level, r) && (r != [] ==> level[n] <= level[r[0]])
    ensures ByLevel(level, [n] + r)
  {
    var t := [n] + r;
    assert forall p :: 0 < p < |t| ==> t[p] == r[p - 1];
  }

  /** `std::sort` with the level as key; the order of equals is left open. */
  method SortByLevel(level: seq<int>, list: seq<nat>) returns (r: seq<nat>)
    requires forall p :: 0 <= p < |list| ==> list[p] < |level|
    ensures multiset(r) == multiset(list) && ByLevel(level, r)
  {
    r := [];
    for i := 0 to |list|
      invariant multiset(r) == multiset(list[..i]) && ByLevel(level, r)
    {
      assert list[..i + 1] == list[..i] + [list[i]];
      InsertSorts(level, r, list[i]);
      InsertBag(level, r, list[i]);
      r := Insert(level, r, list[i]);
    }
    assert list[..|list|] == list;
  }

  lemma SortedFaninsFirst(ns: seq<Node>, level: seq<int>, order: seq<nat>)
    requires |level| == |ns| && ByLevel(level, order)
    requires forall g: nat :: IsGate(ns, g) ==> Above(ns, level, g, |ns[g].fanins|)
    ensures FaninsFirst(ns, order)
  {
    forall p, q | 0 <= p < |order| && 0 <= q < |order| && Feeds(ns, order[p], order[q])
      ensures p < q
    {
      var g := order[q];
      var j :| 0 <= j < |ns[g].fanins| && ns[g].fanins[j] == order[p];
      assert order[p] in order;
      assert Above(ns, level, g, |ns[g].fanins|);
    }
  }

  class SortedCkt {
    const nodes: seq<Node>
    const inputs: seq<nat>
    const gates: seq<nat>
    const nodeList: seq<nat>
    var level: seq<int>
    var gatesSorted: seq<nat>
    var nodesSorted: seq<nat>

    constructor (ns: seq<Node>, ins: seq<nat>, gs: seq<nat>, all: seq<nat>, levels: seq<int>)
      ensures nodes == ns && inputs == ins && gates == gs && nodeList == all && level == levels
    {
      nodes, inputs, gates, nodeList, level := ns, ins, gs, all, levels;
      gatesSorted, nodesSorted := [], [];
    }

    /** The lists are those of an acyclic circuit; levels may be left from earlier. */
    ghost predicate Sortable(rank: seq<nat>)
      reads this`level
    {
      && Ranked(nodes, rank, MaxOf(rank)) && |level| == |nodes|
      && (forall n: nat :: n in inputs <==> n < |nodes| && !nodes[n].Gate?)
      && (forall g: nat :: g in gates <==> IsGate(nodes, g))
      && (forall n: nat :: n in nodeList <==> n < |nodes|)
    }

    /** `topo_sort`. */
    method TopoSort(ghost rank: seq<nat>)
      requires Sortable(rank)
      modifies this
      ensures Sortable(rank) && level == Levels(nodes, rank, old(level))
      ensures multiset(gatesSorted) == multiset(gates) && FaninsFirst(nodes, gatesSorted)
      ensures multiset(nodesSorted) == multiset(nodeList) && FaninsFirst(nodes, nodesSorted)
    {
      ghost var start := level;
      ClearInputs();
      StartRising(nodes, rank, start, level);
      RaiseLevels(rank, start);
      assert level == Levels(nodes, rank, start) by {
        forall n | 0 <= n < |nodes| ensures level[n] == Raised(nodes, rank, start, n) {
          RisenAt(nodes, rank, start, level, n);
        }
      }
      assert forall p :: 0 <= p < |gates| ==> gates[p] in gates;
      assert forall p :: 0 <= p < |nodeList| ==> nodeList[p] in nodeList;
      gatesSorted := SortByLevel(level, gates);
      nodesSorted := SortByLevel(level, nodeList);
      SortedFaninsFirst(nodes, level, gatesSorted);
      SortedFaninsFirst(nodes, level, nodesSorted);
    }

    method ClearInputs()
      requires |level| == |nodes| && forall n :: n in inputs ==> n < |nodes|
      modifies this`level
      ensures |level| == |nodes|
      ensures forall n: nat :: n < |nodes| ==> level[n] == if n in inputs then 0 else old(level)[n]
    {
      for i := 0 to |inputs|
        invariant |level| == |nodes|
        invariant forall n: nat :: n < |nodes| ==> level[n] == if n in inputs[..i] then 0 else old(level)[n]
      {
        assert inputs[i] in inputs && inputs[..i + 1] == inputs[..i] + [inputs[i]];
        level := level[inputs[i] := 0];
      }
      assert inputs[..|inputs|] == inputs;
    }

    /** Levels rise until a round over the gates changes nothing. */
    method RaiseLevels(ghost rank: seq<nat>, ghost start: seq<int>)
      requires Sortable(rank) && Rising(nodes, rank, start, level)
      modifies this`level
      ensures Sortable(rank) && Rising(nodes, rank, start, level)
      ensures forall g: nat :: IsGate(nodes, g) ==> Above(nodes, level, g, |nodes[g].fanins|)
    {
      var changed := true;
      ghost var end := Levels(nodes, rank, start);
      while changed
        invariant Sortable(rank) && Rising(nodes, rank, start, level)
        invariant !changed ==> forall g :: g in gates ==> Above(nodes, level, g, |nodes[g].fanins|)
        decreases Gap(level, end), changed
      {
        GapNat(level, end);
        ghost var gap := Gap(level, end);
        changed := false;
        for i := 0 to |gates|
          invariant Sortable(rank) && Rising(nodes, rank, start, level) && Gap(level, end) <= gap
          invariant if changed then Gap(level, end) < gap else forall p :: 0 <= p < i ==> Raises(p)
        {
          var up := RaiseGate(gates[i], rank, start);
          changed := changed || up;
        }
        GapNat(level, end);
        forall g | g in gates && !changed
          ensures Above(nodes, level, g, |nodes[g].fanins|)
        {
          var p: nat :| p < |gates| && gates[p] == g;
          assert Raises(p);
        }
      }
    }

    /** Gate number `p` of the list is above all its fanins. */
    ghost predicate Raises(p: nat)
      reads this`level
    {
      p < |gates| && IsGate(nodes, gates[p]) && Above(nodes, level, gates[p], |nodes[gates[p]].fanins|)
    }

    /** One gate: above each of its fanins in turn. */
    method RaiseGate(g: nat, ghost rank: seq<nat>, ghost start: seq<int>) returns (changed: bool)
      requires Sortable(rank) && Rising(nodes, rank, start, level) && IsGate(nodes, g) && |start| == |nodes|
      modifies this`level
      ensures Sortable(rank) && Rising(nodes, rank, start, level)
      ensures Gap(level, Levels(nodes, rank, start)) <= old(Gap(level, Levels(nodes, rank, start)))
      ensures changed ==> Gap(level, Levels(nodes, rank, start)) < old(Gap(level, Levels(nodes, rank, start)))
      ensures !changed ==> level == old(level) && Above(nodes, level, g, |nodes[g].fanins|)
    {
      hide Rising, Raised, RaisedBy, Levels, Ranked;
      ghost var end := Levels(nodes, rank, start);
      changed := false;
      for j := 0 to |nodes[g].fanins|
        invariant |level| == |nodes| && Sortable(rank) && Rising(nodes, rank, start, level)
        invariant Gap(level, end) <= old(Gap(level, Levels(nodes, rank, start)))
        invariant changed ==> Gap(level, end) < old(Gap(level, Levels(nodes, rank, start)))
        invariant !changed ==> level == old(level) && Above(nodes, level, g, j)
      {
        RiseStep(nodes, rank, start, level, g, j);
        var a := nodes[g].fanins[j];
        if level[g] < 1 + level[a] {
          GapCloses(level, end, g, 1 + level[a]);
          level := level[g := 1 + level[a]];
          changed := true;
        }
      }
    }
  }

  lemma StartRising(ns: seq<Node>, rank: seq<nat>, start: seq<int>, level: seq<int>)
    requires Ranked(ns, rank, MaxOf(rank)) && |level| == |start| == |ns|
    requires forall n :: 0 <= n < |ns| ==> level[n] == if ns[n].Gate? then start[n] else 0
    ensures Rising(ns, rank, start, level)
  {
    forall n | 0 <= n < |ns| && ns[n].Gate?
      ensures start[n] <= Raised(ns, rank, start, n)
    {
      RaisedAbove(ns, rank, start, n, |ns[n].fanins|);
    }
  }
}
