/**
 The slice constructor of `ckt_t`: the nodes that some of the chosen outputs depend on,
 copied with their connections, and the lists in the order of the original.  A slice
 computes what the original does: its valuations are exactly the restrictions of those
 of the original.
 */
module Slice {
  import opened Cnf
  import opened Netlist
  import opened ConstProp
  import DM = DependMaps
  import TS = TopoSort

  // ----- the fanin cone -----

  /** One of the nodes in `outs` depends on `n`. */
  ghost predicate InCone(ns: seq<Node>, outs: seq<nat>, n: nat) {
    exists o :: o in outs && DM.Depends(ns, o, n)
  }

  /** Flagged nodes up to the given rank have all their fanins flagged. */
  ghost predicate ClosedTo(ns: seq<Node>, rank: seq<nat>, flags: seq<bool>, top: nat) {
    && |flags| == |rank| == |ns|
    && (forall a: nat, n: nat :: Feeds(ns, a, n) && flags[n] && rank[n] <= top ==> a < |ns| && flags[a])
  }

  lemma {:induction false} ClosedReaches(ns: seq<Node>, rank: seq<nat>, flags: seq<bool>, n: nat, a: nat)
    requires Ranked(ns, rank, MaxOf(rank)) && n < |ns| && ClosedTo(ns, rank, flags, rank[n]) && flags[n]
    requires DM.Depends(ns, n, a)
    ensures a < |ns| && flags[a]
    decreases rank[n]
  {
    DM.DependsDown(ns, n, a);
    if a != n {
      var f: nat :| Feeds(ns, f, n) && DM.Depends(ns, f, a);
      ClosedReaches(ns, rank, flags, f, a);
    }
  }

  /** Midway, before fanin `j` of `out`, nodes of lower rank are closed. */
  lemma MidwayClosed(
      ns: seq<Node>, rank: seq<nat>, flags0: seq<bool>, flags: seq<bool>, out: nat, fs: seq<nat>, top: nat)
    requires Ranked(ns, rank, MaxOf(rank)) && out < |ns| && ClosedTo(ns, rank, flags0, top) && top < rank[out]
    requires |flags| == |ns|
    requires forall n: nat :: n < |ns| ==> (flags[n] <==> flags0[n] || n == out || DM.DependsAmong(ns, fs, n))
    ensures ClosedTo(ns, rank, flags, top)
  {
    hide DM.Depends;
    forall a: nat, n: nat | Feeds(ns, a, n) && flags[n] && rank[n] <= top
      ensures a < |ns| && flags[a]
    {
      if !flags0[n] {
        var f :| f in fs && DM.Depends(ns, f, n);
        DM.DependsUp(ns, a, f);
      }
    }
  }

  lemma LowerClosed(ns: seq<Node>, rank: seq<nat>, flags: seq<bool>, top: nat, low: nat)
    requires ClosedTo(ns, rank, flags, top) && low <= top
    ensures ClosedTo(ns, rank, flags, low)
  {
  }

  /** `_compute_fanin_recursive`: what `out` depends on gets flagged, and nothing else. */
  method ComputeFaninRecursive(
      ns: seq<Node>, out: nat, flags0: seq<bool>, ghost rank: seq<nat>) returns (flags: seq<bool>)
    requires Ranked(ns, rank, MaxOf(rank)) && out < |ns| && ClosedTo(ns, rank, flags0, rank[out])
    ensures |flags| == |ns| && forall n: nat :: n < |ns| ==> (flags[n] <==> flags0[n] || DM.Depends(ns, out, n))
    decreases rank[out]
  {
    hide DM.Depends, ClosedTo;
    assert |flags0| == |ns| by { FlagsSize(ns, rank, flags0, rank[out]); }
    flags := flags0;
    if flags[out] {
      forall n: nat | n < |ns| && DM.Depends(ns, out, n)
        ensures flags[n]
      {
        ClosedReaches(ns, rank, flags, out, n);
      }
      return;
    }
    flags := flags[out := true];
    if ns[out].Gate? {
      for j := 0 to |ns[out].fanins|
        invariant |flags| == |ns|
        invariant forall n: nat :: n < |ns| ==>
          (flags[n] <==> flags0[n] || n == out || DM.DependsAmong(ns, ns[out].fanins[..j], n))
      {
        var f := ns[out].fanins[j];
        assert Feeds(ns, f, out);
        LowerClosed(ns, rank, flags0, rank[out], rank[f]);
        MidwayClosed(ns, rank, flags0, flags, out, ns[out].fanins[..j], rank[f]);
        DM.AmongMore(ns, ns[out].fanins, j);
        flags := ComputeFaninRecursive(ns, f, flags, rank);
      }
      assert ns[out].fanins[..|ns[out].fanins|] == ns[out].fanins;
    }
    forall n: nat | n < |ns|
      ensures flags[n] <==> flags0[n] || DM.Depends(ns, out, n)
    {
      DM.DependsDown(ns, out, n);
    }
  }

  lemma FlagsSize(ns: seq<Node>, rank: seq<nat>, flags: seq<bool>, top: nat)
    requires ClosedTo(ns, rank, flags, top)
    ensures |flags| == |ns|
  {
  }

  lemma ConeClosed(ns: seq<Node>, rank: seq<nat>, outs: seq<nat>, flags: seq<bool>, top: nat)
    requires Ranked(ns, rank, MaxOf(rank)) && |flags| == |ns|
    requires forall n: nat :: n < |ns| ==> (flags[n] <==> InCone(ns, outs, n))
    ensures ClosedTo(ns, rank, flags, top)
  {
    hide DM.Depends;
    forall a: nat, n: nat | Feeds(ns, a, n) && flags[n]
      ensures a < |ns| && flags[a]
    {
      var o :| o in outs && DM.Depends(ns, o, n);
      DM.DependsUp(ns, a, o);
    }
  }

  /** The flags of all chosen outputs, one after the other. */
  method FaninCone(ns: seq<Node>, outs: seq<nat>, ghost rank: seq<nat>) returns (flags: seq<bool>)
    requires Ranked(ns, rank, MaxOf(rank)) && forall o :: o in outs ==> o < |ns|
    ensures |flags| == |ns| && forall n: nat :: n < |ns| ==> (flags[n] <==> InCone(ns, outs, n))
  {
    hide DM.Depends;
    flags := seq(|ns|, _ => false);
    for i := 0 to |outs|
      invariant |flags| == |ns| && forall n: nat :: n < |ns| ==> (flags[n] <==> InCone(ns, outs[..i], n))
    {
      assert outs[i] in outs && outs[..i + 1] == outs[..i] + [outs[i]];
      ConeClosed(ns, rank, outs[..i], flags, rank[outs[i]]);
      flags := ComputeFaninRecursive(ns, outs[i], flags, rank);
    }
    assert outs[..|outs|] == outs;
  }

  // ----- the copy -----

  /** A copied node before its inputs are connected. */
  function Unwired(n: Node): Node {
    if n.Gate? then Gate(n.func, [], false) else n
  }

  /** The images of `fs` in the slice. */
  function Image(fwd: map<nat, nat>, fs: seq<nat>): (r: seq<nat>)
    requires forall f :: f in fs ==> f in fwd
    ensures |r| == |fs| && forall j :: 0 <= j < |fs| ==> fs[j] in fs && r[j] == fwd[fs[j]]
  {
    seq(|fs|, j requires 0 <= j < |fs| => assert fs[j] in fs; fwd[fs[j]])
  }

  /** The new nodes stand for the flagged ones below `i`, in order, and the two maps are inverse. */
  ghost predicate Numbered(flags: seq<bool>, i: nat, rev: seq<nat>, fwd: map<nat, nat>) {
    && i <= |flags| && (forall k :: 0 <= k < |rev| ==> rev[k] < i && flags[rev[k]] && rev[k] in fwd && fwd[rev[k]] == k)
    && (forall k, l :: 0 <= k < l < |rev| ==> rev[k] < rev[l])
    && (forall n: nat :: n < i && flags[n] ==> n in fwd)
    && (forall n :: n in fwd ==> fwd[n] < |rev| && rev[fwd[n]] == n)
  }

  /** `list` has, in order, the new nodes that stand for one of `orig`. */
  ghost predicate Picks(list: seq<nat>, rev: seq<nat>, orig: seq<nat>) {
    && (forall k: nat :: k in list <==> k < |rev| && rev[k] in orig)
    && (forall p, q :: 0 <= p < q < |list| ==> list[p] < list[q])
  }

  /** A node gets a copy with the next number, which is listed if the node is. */
  lemma PickStep(list: seq<nat>, rev: seq<nat>, orig: seq<nat>, n: nat)
    requires Picks(list, rev, orig)
    ensures Picks(if n in orig then list + [|rev|] else list, rev + [n], orig)
  {
    var list' := if n in orig then list + [|rev|] else list;
    assert forall p :: 0 <= p < |list| ==> list[p] in list;
    forall k: nat
      ensures k in list' <==> k < |rev| + 1 && (rev + [n])[k] in orig
    {
      assert k in list' <==> k in list || (n in orig && k == |rev|);
    }
  }

  lemma NumberStep(flags: seq<bool>, i: nat, rev: seq<nat>, fwd: map<nat, nat>)
    requires Numbered(flags, i, rev, fwd) && i < |flags|
    ensures if flags[i] then Numbered(flags, i + 1, rev + [i], fwd[i := |rev|]) else Numbered(flags, i + 1, rev, fwd)
  {
  }

  /** `_add_input` for all fanins of a gate: the images of the originals. */
  method WireFanins(fwd: map<nat, nat>, fs: seq<nat>) returns (r: seq<nat>)
    requires forall f :: f in fs ==> f in fwd
    ensures r == Image(fwd, fs)
  {
    r := [];
    for j := 0 to |fs|
      invariant |r| == j && forall l :: 0 <= l < j ==> fs[l] in fs && r[l] == fwd[fs[l]]
    {
      assert fs[j] in fs;
      r := r + [fwd[fs[j]]];
    }
  }

  /** The nodes as copied, with the gates in `done` connected. */
  ghost predicate WiredTo(c: Ckt, rev: seq<nat>, fwd: map<nat, nat>, nodes: seq<Node>, done: seq<nat>) {
    && |nodes| == |rev| && (forall k :: 0 <= k < |rev| ==> rev[k] < |c.nodes|)
    && (forall k :: 0 <= k < |rev| ==> WiredAt(c, rev, fwd, nodes[k], k, k in done))
  }

  ghost predicate WiredAt(c: Ckt, rev: seq<nat>, fwd: map<nat, nat>, node: Node, k: nat, done: bool)
    requires k < |rev| && rev[k] < |c.nodes|
  {
    if done && c.nodes[rev[k]].Gate? then
      (forall f :: f in c.nodes[rev[k]].fanins ==> f in fwd) &&
      node == Gate(c.nodes[rev[k]].func, Image(fwd, c.nodes[rev[k]].fanins), false)
    else node == Unwired(c.nodes[rev[k]])
  }

  /** For each new node its place in the original list, where it has one. */
  method Places(orig: seq<nat>, fwd: map<nat, nat>, size: nat) returns (place: seq<int>)
    requires forall n :: n in fwd ==> fwd[n] < size
    requires forall n, m :: n in fwd && m in fwd && fwd[n] == fwd[m] ==> n == m
    ensures |place| == size
    ensures forall n :: n in fwd && n in orig ==> 0 <= place[fwd[n]] < |orig| && orig[place[fwd[n]]] == n
  {
    place := seq(size, _ => 0);
    for i := 0 to |orig|
      invariant |place| == size
      invariant forall n :: n in fwd && n in orig[..i] ==> 0 <= place[fwd[n]] < i && orig[place[fwd[n]]] == n
    {
      assert orig[..i + 1] == orig[..i] + [orig[i]];
      if orig[i] in fwd {
        place := place[fwd[orig[i]] := i];
      }
    }
    assert orig[..|orig|] == orig;
  }

  /** A list of new nodes is brought into the order of the original. */
  method Reorder(orig: seq<nat>, rev: seq<nat>, fwd: map<nat, nat>, list: seq<nat>) returns (r: seq<nat>)
    requires Picks(list, rev, orig) && Inverse(rev, fwd)
    ensures (forall k: nat :: k in r <==> k < |rev| && rev[k] in orig) && NoDup(r) && SameOrder(orig, rev, r)
  {
    hide SameOrder;
    var place := Places(orig, fwd, |rev|);
    assert forall p :: 0 <= p < |list| ==> list[p] in list;
    r := TS.SortByLevel(place, list);
    DM.Rearranged(list, r);
    PlacedSameOrder(orig, rev, fwd, place, r);
  }

  ghost predicate Inverse(rev: seq<nat>, fwd: map<nat, nat>) {
    && (forall n :: n in fwd ==> fwd[n] < |rev| && rev[fwd[n]] == n)
    && (forall k :: 0 <= k < |rev| ==> rev[k] in fwd && fwd[rev[k]] == k)
  }

  lemma PlacedSameOrder(orig: seq<nat>, rev: seq<nat>, fwd: map<nat, nat>, place: seq<int>, r: seq<nat>)
    requires Inverse(rev, fwd) && TS.ByLevel(place, r) && |place| == |rev| && NoDup(r)
    requires forall k: nat :: k in r <==> k < |rev| && rev[k] in orig
    requires forall n :: n in fwd && n in orig ==> 0 <= place[fwd[n]] < |orig| && orig[place[fwd[n]]] == n
    ensures SameOrder(orig, rev, r)
  {
    forall p, q | 0 <= p < q < |r| && r[p] < |rev| && r[q] < |rev|
      ensures Precedes(orig, rev[r[p]], rev[r[q]])
    {
      assert r[p] in r && r[q] in r;
      var i, j := place[r[p]], place[r[q]];
      assert orig[i] == rev[r[p]] && orig[j] == rev[r[q]];
      assert fwd[rev[r[p]]] != fwd[rev[r[q]]];
    }
  }

  /** The constructor: flags, copies, connections, and lists in the original order. */
  method BuildSlice(c: Ckt, outs: seq<nat>) returns (s: Ckt, rev: seq<nat>, fwd: map<nat, nat>)
    requires WellFormed(c) && Acyclic(c) && forall o :: o in outs ==> o < |c.nodes|
    ensures SliceOf(c, s, outs, rev, fwd)
  {
    hide InCone, Numbered, Picks, WiredTo, SameOrder, Acyclic;
    ghost var rank := NodeRank(c);
    var flags := FaninCone(c.nodes, outs, rank);
    var nodes, ins, keys, gates, os;
    rev, fwd, nodes, ins, keys, gates, os := CopyNodes(c, flags);
    nodes := WireGates(c, outs, flags, rev, fwd, nodes, gates);
    NumberedInverse(flags, rev, fwd);
    PicksDistinct(gates, rev, c.gates);
    ins := Reorder(c.cktInputs, rev, fwd, ins);
    keys := Reorder(c.keyInputs, rev, fwd, keys);
    os := Reorder(c.outputs, rev, fwd, os);
    s := Ckt(nodes, ins, keys, gates, os);
    AllWired(c, s, rev, fwd);
  }

  lemma NodeRank(c: Ckt) returns (rank: seq<nat>)
    requires WellFormed(c) && Acyclic(c)
    ensures Ranked(c.nodes, rank, MaxOf(rank))
  {
    rank :| IsRank(c, rank);
    forall a: nat, g: nat | Feeds(c.nodes, a, g)
      ensures a < |c.nodes| && rank[a] < rank[g]
    {
      assert GateShape(c.nodes[g], |c.nodes|);
    }
  }

  lemma NumberedInverse(flags: seq<bool>, rev: seq<nat>, fwd: map<nat, nat>)
    requires Numbered(flags, |flags|, rev, fwd)
    ensures Inverse(rev, fwd) && forall n: nat :: n in fwd <==> n < |flags| && flags[n]
  {
    forall n: nat | n in fwd
      ensures n < |flags| && flags[n]
    {
      assert rev[fwd[n]] == n;
    }
  }

  lemma PicksDistinct(list: seq<nat>, rev: seq<nat>, orig: seq<nat>)
    requires Picks(list, rev, orig)
    ensures NoDup(list) && forall k: nat :: k in list <==> k < |rev| && rev[k] in orig
  {
  }

  lemma AllWired(c: Ckt, s: Ckt, rev: seq<nat>, fwd: map<nat, nat>)
    requires WellFormed(c) && WiredTo(c, rev, fwd, s.nodes, s.gates)
    requires forall k: nat :: k in s.gates <==> k < |rev| && rev[k] in c.gates
    ensures Copies(c, s, rev, fwd)
  {
    forall k | 0 <= k < |rev|
      ensures CopyAt(c, s, rev, fwd, k)
    {
      assert WiredAt(c, rev, fwd, s.nodes[k], k, k in s.gates);
    }
  }

  /** The loop over the flags: new nodes, the two maps, and the lists as they come. */
  method CopyNodes(c: Ckt, flags: seq<bool>)
    returns (
      rev: seq<nat>, fwd: map<nat, nat>, nodes: seq<Node>, ins: seq<nat>, keys: seq<nat>, gates: seq<nat>, os: seq<nat>)
    requires WellFormed(c) && |flags| == |c.nodes|
    ensures Numbered(flags, |flags|, rev, fwd) && WiredTo(c, rev, fwd, nodes, [])
    ensures Picks(ins, rev, c.cktInputs) && Picks(keys, rev, c.keyInputs)
    ensures Picks(gates, rev, c.gates) && Picks(os, rev, c.outputs)
  {
    hide Numbered, Picks;
    rev, fwd, nodes, ins, keys, gates, os := [], map[], [], [], [], [], [];
    StartCopying(c, flags);
    for i := 0 to |flags|
      invariant Numbered(flags, i, rev, fwd) && WiredTo(c, rev, fwd, nodes, [])
      invariant Picks(ins, rev, c.cktInputs) && Picks(keys, rev, c.keyInputs)
      invariant Picks(gates, rev, c.gates) && Picks(os, rev, c.outputs)
    {
      NumberStep(flags, i, rev, fwd);
      if flags[i] {
        PickStep(ins, rev, c.cktInputs, i);
        PickStep(keys, rev, c.keyInputs, i);
        PickStep(gates, rev, c.gates, i);
        PickStep(os, rev, c.outputs, i);
        var k := |nodes|;
        match c.nodes[i] {
          case CktIn =>
            nodes, ins := nodes + [CktIn], ins + [k];
          case KeyIn =>
            nodes, keys := nodes + [KeyIn], keys + [k];
          case Gate(f, _, _) =>
            nodes, gates := nodes + [Gate(f, [], false)], gates + [k];
        }
        if i in c.outputs {
          os := os + [k];
        }
        rev, fwd := rev + [i], fwd[i := k];
      }
    }
  }

  lemma StartCopying(c: Ckt, flags: seq<bool>)
    ensures Numbered(flags, 0, [], map[]) && Picks([], [], c.cktInputs) && Picks([], [], c.keyInputs)
    ensures Picks([], [], c.gates) && Picks([], [], c.outputs)
  {
  }

  /** The loop over the new gates. */
  method WireGates(
      c: Ckt, outs: seq<nat>, flags: seq<bool>, rev: seq<nat>, fwd: map<nat, nat>, nodes0: seq<Node>, gates: seq<nat>)
    returns (nodes: seq<Node>)
    requires WellFormed(c) && |flags| == |c.nodes|
    requires forall n: nat :: n < |c.nodes| ==> (flags[n] <==> InCone(c.nodes, outs, n))
    requires Numbered(flags, |flags|, rev, fwd) && Picks(gates, rev, c.gates) && WiredTo(c, rev, fwd, nodes0, [])
    ensures WiredTo(c, rev, fwd, nodes, gates)
  {
    nodes := nodes0;
    NumberedInverse(flags, rev, fwd);
    PicksDistinct(gates, rev, c.gates);
    hide Numbered, InCone, Picks;
    assert gates[..0] == [];
    for p := 0 to |gates|
      invariant WiredTo(c, rev, fwd, nodes, gates[..p])
    {
      var g := gates[p];
      assert g in gates && rev[g] in c.gates && gates[..p + 1] == gates[..p] + [g];
      FaninsCopied(c, outs, rev, fwd, g);
      var ins := WireFanins(fwd, c.nodes[rev[g]].fanins);
      nodes := nodes[g := nodes[g].(fanins := ins)];
    }
    assert gates[..|gates|] == gates;
  }

  lemma FaninsCopied(c: Ckt, outs: seq<nat>, rev: seq<nat>, fwd: map<nat, nat>, g: nat)
    requires WellFormed(c) && g < |rev| && Inverse(rev, fwd) && rev[g] < |c.nodes| && c.nodes[rev[g]].Gate?
    requires forall n: nat :: n in fwd <==> n < |c.nodes| && InCone(c.nodes, outs, n)
    ensures forall f :: f in c.nodes[rev[g]].fanins ==> f in fwd
  {
    hide DM.Depends;
    assert InCone(c.nodes, outs, rev[g]);
    var o :| o in outs && DM.Depends(c.nodes, o, rev[g]);
    forall f | f in c.nodes[rev[g]].fanins
      ensures f in fwd
    {
      assert GateShape(c.nodes[rev[g]], |c.nodes|) && Feeds(c.nodes, f, rev[g]);
      DM.DependsUp(c.nodes, f, o);
    }
  }

  /** One of `orig` stands before another exactly if their images in `list` do. */
  ghost predicate SameOrder(orig: seq<nat>, rev: seq<nat>, list: seq<nat>) {
    forall p, q :: 0 <= p < q < |list| && list[p] < |rev| && list[q] < |rev| ==>
      Precedes(orig, rev[list[p]], rev[list[q]])
  }

  ghost predicate Precedes(orig: seq<nat>, a: nat, b: nat) {
    exists i, j :: 0 <= i < j < |orig| && orig[i] == a && orig[j] == b
  }

  ghost predicate Copies(c: Ckt, s: Ckt, rev: seq<nat>, fwd: map<nat, nat>) {
    && |s.nodes| == |rev| && (forall k :: 0 <= k < |rev| ==> rev[k] < |c.nodes|)
    && (forall k :: 0 <= k < |rev| ==> CopyAt(c, s, rev, fwd, k))
  }

  ghost predicate CopyAt(c: Ckt, s: Ckt, rev: seq<nat>, fwd: map<nat, nat>, k: nat)
    requires k < |rev| == |s.nodes| && rev[k] < |c.nodes|
  {
    if c.nodes[rev[k]].Gate? then
      (forall f :: f in c.nodes[rev[k]].fanins ==> f in fwd) &&
      s.nodes[k] == Gate(c.nodes[rev[k]].func, Image(fwd, c.nodes[rev[k]].fanins), false)
    else s.nodes[k] == c.nodes[rev[k]]
  }

  /** `s` is the slice of `c` for the chosen outputs; its node `k` is a copy of `rev[k]`. */
  ghost predicate SliceOf(c: Ckt, s: Ckt, outs: seq<nat>, rev: seq<nat>, fwd: map<nat, nat>) {
    && Copies(c, s, rev, fwd)
    && (forall n: nat :: n in fwd <==> n < |c.nodes| && InCone(c.nodes, outs, n))
    && Inverse(rev, fwd) && SliceLists(c, s, rev)
  }

  ghost predicate SliceLists(c: Ckt, s: Ckt, rev: seq<nat>) {
    && (forall k: nat :: k in s.cktInputs <==> k < |rev| && rev[k] in c.cktInputs) && NoDup(s.cktInputs)
    && (forall k: nat :: k in s.keyInputs <==> k < |rev| && rev[k] in c.keyInputs) && NoDup(s.keyInputs)
    && (forall k: nat :: k in s.gates <==> k < |rev| && rev[k] in c.gates) && NoDup(s.gates)
    && (forall k: nat :: k in s.outputs <==> k < |rev| && rev[k] in c.outputs) && NoDup(s.outputs)
    && SameOrder(c.cktInputs, rev, s.cktInputs) && SameOrder(c.keyInputs, rev, s.keyInputs)
    && SameOrder(c.outputs, rev, s.outputs)
  }

  // ----- what a slice computes -----

  /** The values of the copied nodes. */
  function Restricted(v: Model, rev: seq<nat>): (u: Model)
    ensures |u| == |rev|
  {
    Vals(v, rev)
  }

  lemma RestrictedVals(v: Model, rev: seq<nat>, fwd: map<nat, nat>, fs: seq<nat>)
    requires forall f :: f in fs ==> f in fwd && fwd[f] < |rev| && rev[fwd[f]] == f
    ensures Vals(Restricted(v, rev), Image(fwd, fs)) == Vals(v, fs)
  {
    var r := Image(fwd, fs);
    forall j | 0 <= j < |fs|
      ensures Bit(Restricted(v, rev), r[j]) == Bit(v, fs[j])
    {
      assert fs[j] in fs;
    }
  }

  lemma SliceWellFormed(c: Ckt, s: Ckt, outs: seq<nat>, rev: seq<nat>, fwd: map<nat, nat>)
    requires WellFormed(c) && Acyclic(c) && SliceOf(c, s, outs, rev, fwd)
    ensures WellFormed(s) && Acyclic(s)
  {
    hide InCone, SameOrder;
    forall k | 0 <= k < |s.nodes|
      ensures GateShape(s.nodes[k], |s.nodes|)
      ensures s.nodes[k].Gate? == c.nodes[rev[k]].Gate? && s.nodes[k].CktIn? == c.nodes[rev[k]].CktIn?
    {
      assert CopyAt(c, s, rev, fwd, k);
      assert GateShape(c.nodes[rev[k]], |c.nodes|);
    }
    var rank :| IsRank(c, rank);
    var rank' := seq(|rev|, k requires 0 <= k < |rev| => rank[rev[k]]);
    forall k, j | 0 <= k < |s.nodes| && s.nodes[k].Gate? && j in s.nodes[k].fanins && j < |rank'|
      ensures rank'[j] < rank'[k]
    {
      assert CopyAt(c, s, rev, fwd, k);
      var p :| 0 <= p < |s.nodes[k].fanins| && s.nodes[k].fanins[p] == j;
      var f := c.nodes[rev[k]].fanins[p];
      assert f in c.nodes[rev[k]].fanins;
    }
    assert IsRank(s, rank');
  }

  /** Every valuation of the original restricts to one of the slice. */
  lemma SliceDown(c: Ckt, s: Ckt, outs: seq<nat>, rev: seq<nat>, fwd: map<nat, nat>, v: Model)
    requires WellFormed(c) && Acyclic(c) && SliceOf(c, s, outs, rev, fwd) && IsVal(c, v)
    ensures WellFormed(s) && IsVal(s, Restricted(v, rev))
  {
    SliceWellFormed(c, s, outs, rev, fwd);
    hide InCone, SameOrder;
    forall k | 0 <= k < |s.nodes|
      ensures GateHolds(s, Restricted(v, rev), k)
    {
      assert CopyAt(c, s, rev, fwd, k);
      assert GateHolds(c, v, rev[k]);
      if c.nodes[rev[k]].Gate? {
        RestrictedVals(v, rev, fwd, c.nodes[rev[k]].fanins);
      }
    }
  }

  /** Every valuation of the slice extends to one of the original, with any values at the inputs left out. */
  lemma SliceUp(
      c: Ckt, s: Ckt, outs: seq<nat>, rev: seq<nat>, fwd: map<nat, nat>, u: Model, base: Model) returns (v: Model)
    requires WellFormed(c) && Acyclic(c) && SliceOf(c, s, outs, rev, fwd) && WellFormed(s) && IsVal(s, u)
    ensures IsVal(c, v) && Restricted(v, rev) == u
    ensures forall n :: 0 <= n < |c.nodes| && !c.nodes[n].Gate? && n !in fwd ==> Bit(v, n) == Bit(base, n)
  {
    SliceWellFormed(c, s, outs, rev, fwd);
    var mixed := seq(|c.nodes|, n requires 0 <= n < |c.nodes| => if n in fwd then Bit(u, fwd[n]) else Bit(base, n));
    v := ValuationExists(c, mixed);
    SliceDown(c, s, outs, rev, fwd, v);
    var w := Restricted(v, rev);
    var rank :| IsRank(s, rank);
    forall k | 0 <= k < |s.nodes| && !s.nodes[k].Gate?
      ensures Bit(w, k) == Bit(u, k)
    {
      assert CopyAt(c, s, rev, fwd, k);
    }
    forall k | 0 <= k < |s.nodes|
      ensures w[k] == u[k]
    {
      ValuationAgree(s, rank, w, u, k);
      assert w[k] == Bit(w, k) && u[k] == Bit(u, k);
    }
  }
}
