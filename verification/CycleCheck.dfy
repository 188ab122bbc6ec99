/**
 `ckt_t::has_cycle`: depth-first search with three marks reports a cycle exactly
 if the gates cannot be put in an order in which fanins come first.
 */
module CycleCheck {
  import opened Cnf
  import opened Netlist
  import opened ConstProp

  datatype Mark = NoMark | Temp | Perm

  /** `path` leads along fanins: each node is a fanin of the one before it. */
  ghost predicate IsPath(ns: seq<Node>, path: seq<nat>) {
    && (forall t :: 0 <= t < |path| ==> path[t] < |ns|)
    && (forall t :: 0 <= t < |path| - 1 ==> Feeds(ns, path[t + 1], path[t]))
  }

  ghost predicate IsCycle(ns: seq<Node>, path: seq<nat>) {
    |path| > 0 && IsPath(ns, path) && Feeds(ns, path[0], path[|path| - 1])
  }

  ghost predicate HasCycle(ns: seq<Node>) {
    exists path :: IsCycle(ns, path)
  }

  lemma {:induction false} RankFalls(ns: seq<Node>, rank: seq<nat>, top: nat, path: seq<nat>, t: nat)
    requires Ranked(ns, rank, top) && IsPath(ns, path) && t < |path|
    ensures rank[path[t]] <= rank[path[0]]
  {
    if t > 0 {
      RankFalls(ns, rank, top, path, t - 1);
      var n := t - 1;
      assert Feeds(ns, path[n + 1], path[n]);
    }
  }

  /** A cycle leaves no order. */
  lemma CycleNotOrderable(ns: seq<Node>)
    requires HasCycle(ns)
    ensures !Orderable(ns)
  {
    var path :| IsCycle(ns, path);
    forall rank
      ensures !Ranked(ns, rank, MaxOf(rank))
    {
      if Ranked(ns, rank, MaxOf(rank)) {
        RankFalls(ns, rank, MaxOf(rank), path, |path| - 1);
      }
    }
  }

  // ----- the marks -----

  ghost predicate InRange(ns: seq<Node>) {
    forall a: nat, g: nat :: Feeds(ns, a, g) ==> a < |ns|
  }

  /** Finished nodes are listed in `order`, each after all of its fanins. */
  ghost predicate Finished(ns: seq<Node>, marks: seq<Mark>, order: seq<nat>) {
    && |marks| == |ns| && NoDup(order)
    && (forall a: nat :: a in order <==> a < |ns| && marks[a] == Perm)
    && (forall p, a: nat :: 0 <= p < |order| && Feeds(ns, a, order[p]) ==> a in order[..p])
  }

  /** Nodes being visited are those of the search path. */
  ghost predicate OnPath(ns: seq<Node>, marks: seq<Mark>, path: seq<nat>) {
    && |marks| == |ns| && IsPath(ns, path)
    && (forall a: nat :: a in path <==> a < |ns| && marks[a] == Temp)
  }

  function Unmarked(marks: seq<Mark>): nat {
    if marks == [] then 0 else Unmarked(marks[..|marks| - 1]) + (if marks[|marks| - 1] == NoMark then 1 else 0)
  }

  lemma {:induction false} MarkOne(marks: seq<Mark>, i: nat, m: Mark)
    requires i < |marks| && marks[i] == NoMark && m != NoMark
    ensures Unmarked(marks[i := m]) == Unmarked(marks) - 1
  {
    var n := |marks| - 1;
    if i < n {
      assert marks[i := m][..n] == marks[..n][i := m];
      MarkOne(marks[..n], i, m);
    } else {
      assert marks[i := m][..n] == marks[..n];
    }
  }

  lemma {:induction false} MarkedAlike(a: seq<Mark>, b: seq<Mark>)
    requires |a| == |b| && forall i :: 0 <= i < |a| && b[i] == NoMark ==> a[i] == NoMark
    ensures Unmarked(b) <= Unmarked(a)
  {
    if a != [] {
      MarkedAlike(a[..|a| - 1], b[..|b| - 1]);
    }
  }

  /** Position of the fanin in the search path closes a cycle. */
  lemma ClosesCycle(ns: seq<Node>, path: seq<nat>, i: nat)
    requires IsPath(ns, path) && |path| > 0 && i in path && Feeds(ns, i, path[|path| - 1])
    ensures HasCycle(ns)
  {
    var t :| 0 <= t < |path| && path[t] == i;
    var cycle := path[t..];
    forall k | 0 <= k < |cycle| - 1 ensures Feeds(ns, cycle[k + 1], cycle[k]) {
      var n := t + k;
      assert Feeds(ns, path[n + 1], path[n]);
    }
    assert IsCycle(ns, cycle);
  }

  /** With every node finished, the finishing order is a rank. */
  lemma FinishedOrders(ns: seq<Node>, marks: seq<Mark>, order: seq<nat>)
    requires InRange(ns) && Finished(ns, marks, order) && forall a :: 0 <= a < |ns| ==> marks[a] == Perm
    ensures Orderable(ns)
  {
    var rank := seq(|ns|, a requires 0 <= a < |ns| => Position(order, a));
    forall a: nat, g: nat | Feeds(ns, a, g)
      ensures a < |ns| && rank[a] < rank[g]
    {
      var p := Position(order, g);
      PositionIn(order, g);
      assert a in order[..p];
      var q :| 0 <= q < p && order[..p][q] == a;
      PositionOf(order, q);
    }
    assert Ranked(ns, rank, MaxOf(rank));
  }

  function Position(s: seq<nat>, x: nat): nat {
    if s == [] then 0 else if s[0] == x then 0 else 1 + Position(s[1..], x)
  }

  lemma {:induction false} PositionIn(s: seq<nat>, x: nat)
    requires x in s
    ensures Position(s, x) < |s| && s[Position(s, x)] == x
  {
    if s[0] != x {
      PositionIn(s[1..], x);
    }
  }

  lemma {:induction false} PositionOf(s: seq<nat>, q: nat)
    requires q < |s|
    ensures Position(s, s[q]) <= q
  {
    if q > 0 && s[0] != s[q] {
      PositionOf(s[1..], q - 1);
    }
  }

  class CycleSearch {
    const nodes: seq<Node>
    var marks: seq<Mark>
    /** Nodes in the order in which they were finished. */
    ghost var order: seq<nat>

    constructor (ns: seq<Node>)
      ensures nodes == ns
    {
      nodes, marks, order := ns, [], [];
    }

    /** `has_cycle`. */
    method HasCycleMarks() returns (found: bool)
      requires InRange(nodes)
      modifies this
      ensures found <==> HasCycle(nodes)
      ensures found <==> !Orderable(nodes)
    {
      marks := seq(|nodes|, _ => NoMark);
      order := [];
      var i := 0;
      while i != |nodes|
        invariant 0 <= i <= |nodes| && OnPath(nodes, marks, []) && Finished(nodes, marks, order)
        invariant forall a :: 0 <= a < i ==> marks[a] == Perm
      {
        if marks[i] == NoMark {
          found := CycleCheck(i, []);
          if found {
            CycleNotOrderable(nodes);
            return;
          }
        } else {
          assert marks[i] != Temp;
        }
        i := i + 1;
      }
      FinishedOrders(nodes, marks, order);
      if HasCycle(nodes) {
        CycleNotOrderable(nodes);
      }
      found := false;
    }

    /** `_cycle_check`, below the nodes of `path`. */
    method CycleCheck(i: nat, ghost path: seq<nat>) returns (found: bool)
      requires InRange(nodes) && i < |nodes| && OnPath(nodes, marks, path) && Finished(nodes, marks, order)
      requires path == [] || Feeds(nodes, i, path[|path| - 1])
      modifies this
      ensures found ==> HasCycle(nodes)
      ensures !found ==> OnPath(nodes, marks, path) && Finished(nodes, marks, order) && marks[i] == Perm
      ensures Grown(old(marks), marks)
      decreases Unmarked(marks), 0
    {
      hide OnPath, Finished, IsPath, HasCycle, InRange, Unmarked, Grown;
      GrownRefl(marks);
      MarksSize(nodes, marks, path);
      if marks[i] == Temp {
        TempOnPath(nodes, marks, path, i);
        ClosesCycle(nodes, path, i);
        return true;
      }
      if marks[i] == NoMark {
        MarkOne(marks, i, Temp);
        NotOnPath(nodes, marks, path, i);
        Enter(nodes, marks, order, path, i);
        ghost var marks0 := marks;
        marks := marks[i := Temp];
        var ins := if nodes[i].Gate? then nodes[i].fanins else [];
        found := VisitFanins(i, ins, path + [i]);
        GrownFromTemp(marks0, marks, i);
        if found {
          return;
        }
        Leave(nodes, marks, order, path, i, ins);
        GrownToPerm(marks0, marks, i);
        marks := marks[i := Perm];
        order := order + [i];
      } else {
        assert marks[i] == Perm;
      }
      found := false;
    }

    /** The loop of `_cycle_check` over the fanins of node `i`, the last of `path`. */
    method VisitFanins(i: nat, ins: seq<nat>, ghost path: seq<nat>) returns (found: bool)
      requires InRange(nodes) && i < |nodes| && OnPath(nodes, marks, path) && Finished(nodes, marks, order)
      requires |path| > 0 && path[|path| - 1] == i && ins == if nodes[i].Gate? then nodes[i].fanins else []
      modifies this
      ensures found ==> HasCycle(nodes)
      ensures !found ==> OnPath(nodes, marks, path) && Finished(nodes, marks, order)
      ensures !found ==> forall k :: 0 <= k < |ins| ==> ins[k] in order
      ensures Grown(old(marks), marks)
      decreases Unmarked(marks), 1
    {
      hide OnPath, Finished, IsPath, HasCycle, InRange, Unmarked, Grown;
      ghost var marks0 := marks;
      GrownRefl(marks0);
      var j := 0;
      while j != |ins|
        invariant 0 <= j <= |ins| && OnPath(nodes, marks, path) && Finished(nodes, marks, order)
        invariant forall k :: 0 <= k < j ==> ins[k] in order
        invariant Grown(marks0, marks)
      {
        var jdx := ins[j];
        FaninInRange(nodes, i, jdx);
        GrownSmaller(marks0, marks);
        ghost var marks1, order1 := marks, order;
        found := CycleCheck(jdx, path);
        GrownTrans(marks0, marks1, marks);
        if found {
          return;
        }
        StillFinished(nodes, marks1, order1, marks, order, jdx);
        j := j + 1;
      }
      found := false;
    }
  }

  /** Only nodes without a mark get one. */
  ghost predicate Grown(marks: seq<Mark>, marks': seq<Mark>) {
    && |marks'| == |marks|
    && forall a :: 0 <= a < |marks| && marks'[a] != marks[a] ==> marks[a] == NoMark && marks'[a] != NoMark
  }

  lemma GrownRefl(marks: seq<Mark>)
    ensures Grown(marks, marks)
  {
  }

  lemma GrownTrans(a: seq<Mark>, b: seq<Mark>, c: seq<Mark>)
    requires Grown(a, b) && Grown(b, c)
    ensures Grown(a, c)
  {
  }

  lemma GrownSmaller(a: seq<Mark>, b: seq<Mark>)
    requires Grown(a, b)
    ensures Unmarked(b) <= Unmarked(a)
  {
    MarkedAlike(a, b);
  }

  lemma GrownFromTemp(marks: seq<Mark>, marks': seq<Mark>, i: nat)
    requires i < |marks| && marks[i] == NoMark && Grown(marks[i := Temp], marks')
    ensures Grown(marks, marks') && |marks'| == |marks| && marks'[i] == Temp
  {
    assert marks[i := Temp][i] == Temp;
  }

  lemma GrownToPerm(marks: seq<Mark>, marks': seq<Mark>, i: nat)
    requires i < |marks| && marks[i] == NoMark && Grown(marks, marks')
    ensures Grown(marks, marks'[i := Perm])
  {
  }

  lemma MarksSize(ns: seq<Node>, marks: seq<Mark>, path: seq<nat>)
    requires OnPath(ns, marks, path)
    ensures |marks| == |ns|
  {
  }

  lemma TempOnPath(ns: seq<Node>, marks: seq<Mark>, path: seq<nat>, i: nat)
    requires OnPath(ns, marks, path) && i < |ns| && marks[i] == Temp
    ensures i in path && |path| > 0 && IsPath(ns, path)
  {
  }

  lemma FaninInRange(ns: seq<Node>, i: nat, a: nat)
    requires InRange(ns) && i < |ns| && ns[i].Gate? && a in ns[i].fanins
    ensures a < |ns| && Feeds(ns, a, i)
  {
    assert Feeds(ns, a, i);
  }

  lemma Enter(ns: seq<Node>, marks: seq<Mark>, order: seq<nat>, path: seq<nat>, i: nat)
    requires OnPath(ns, marks, path) && Finished(ns, marks, order) && i < |ns| && marks[i] == NoMark
    requires path == [] || Feeds(ns, i, path[|path| - 1])
    ensures OnPath(ns, marks[i := Temp], path + [i]) && Finished(ns, marks[i := Temp], order)
  {
    var below := path + [i];
    forall t | 0 <= t < |below| - 1 ensures Feeds(ns, below[t + 1], below[t]) {
      if t < |path| - 1 {
        assert Feeds(ns, path[t + 1], path[t]);
      }
    }
  }

  /** What was finished before a deeper visit still is. */
  lemma StillFinished(
      ns: seq<Node>, marks: seq<Mark>, order: seq<nat>, marks': seq<Mark>, order': seq<nat>, jdx: nat)
    requires Finished(ns, marks, order) && Finished(ns, marks', order') && jdx < |ns| && marks'[jdx] == Perm
    requires Grown(marks, marks')
    ensures jdx in order' && forall a :: a in order ==> a in order'
  {
  }

  lemma Leave(ns: seq<Node>, marks: seq<Mark>, order: seq<nat>, path: seq<nat>, i: nat, ins: seq<nat>)
    requires OnPath(ns, marks, path + [i]) && Finished(ns, marks, order) && i < |ns| && i !in path
    requires ins == if ns[i].Gate? then ns[i].fanins else []
    requires forall k :: 0 <= k < |ins| ==> ins[k] in order
    ensures OnPath(ns, marks[i := Perm], path) && Finished(ns, marks[i := Perm], order + [i])
  {
    var below, order', marks' := path + [i], order + [i], marks[i := Perm];
    assert below[|path|] == i && i in below;
    forall t | 0 <= t < |path| - 1 ensures Feeds(ns, path[t + 1], path[t]) {
      assert Feeds(ns, below[t + 1], below[t]);
    }
    forall t | 0 <= t < |path| ensures path[t] < |ns| {
      assert below[t] == path[t];
    }
    forall a: nat ensures a in path <==> a < |ns| && marks'[a] == Temp {
      assert a in below <==> a in path || a == i;
    }
    assert i !in order;
    forall p, a: nat | 0 <= p < |order'| && Feeds(ns, a, order'[p])
      ensures a in order'[..p]
    {
      if p < |order| {
        assert order'[..p] == order[..p];
      } else {
        assert order'[..p] == order;
        var k :| 0 <= k < |ins| && ins[k] == a;
      }
    }
  }

  lemma NotOnPath(ns: seq<Node>, marks: seq<Mark>, path: seq<nat>, i: nat)
    requires OnPath(ns, marks, path) && i < |ns| && marks[i] == NoMark
    ensures i !in path
  {
  }
}
