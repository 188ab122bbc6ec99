/**
 The key gates of `ckt_t` and the encoders of `toc13enc_t` that insert them: and/or
 gates, xor/xnor gates with an inversion where the key bit asks for one, and
 multiplexers whose second input is chosen by trying for cycles.
 */
module KeyGates {
  import opened Cnf
  import opened Netlist
  import opened Rewriting
  import opened ConstProp
  import opened GateAlgebra
  import opened Splice
  import opened Locking
  import CC = CycleCheck
  import BP = BufferPass

  function NodeAt(nd: Node, a: nat): bool {
    nd.Gate? && a in nd.fanins
  }

  /** The cells that read node `a`, numbered from `base`. */
  function Reading(cells: seq<Node>, base: nat, a: nat): seq<nat> {
    if cells == [] then []
    else
      var last := |cells| - 1;
      Reading(cells[..last], base, a) + if NodeAt(cells[last], a) then [base + last] else []
  }

  lemma {:induction false} ReadingShape(cells: seq<Node>, base: nat, a: nat)
    ensures NoDup(Reading(cells, base, a))
    ensures forall g: nat :: g in Reading(cells, base, a) <==> base <= g < base + |cells| && NodeAt(cells[g - base], a)
  {
    if cells != [] {
      var last := |cells| - 1;
      ReadingShape(cells[..last], base, a);
      DisjointNoDup(Reading(cells[..last], base, a), if NodeAt(cells[last], a) then [base + last] else [], base + last);
    }
  }

  /** Fanouts after splicing `cells` in behind `n`: the key gate, the second cell, takes over those of `n`. */
  function KeyedFanouts(s: State, n: nat, cells: seq<Node>): (fo: seq<seq<nat>>)
    requires n < |s.nodes| == |s.fanouts|
    ensures |fo| == |s.nodes| + |cells|
  {
    var k := |s.nodes|;
    seq(k + |cells|, a requires 0 <= a < k + |cells| =>
      (if a == k + 1 then s.fanouts[n] else if a < k && a != n then s.fanouts[a] else []) + Reading(cells, k, a))
  }

  /** The circuit with a key input and the gates after it in `cells` spliced in behind node `n`. */
  function Keyed(s: State, n: nat, inv: bool, cells: seq<Node>): State
    requires n < |s.nodes| == |s.fanouts| == |s.isOut| && (s.isOut[n] ==> n in s.outputs) && |cells| >= 2
  {
    var k := |s.nodes|;
    State(
      Spliced(s.nodes, s.fanouts[n], n, inv, k + 1, cells), KeyedFanouts(s, n, cells),
      s.isOut + [false, s.isOut[n]] + seq(|cells| - 2, _ => false),
      s.list + Numbers(k, |cells|), s.inputs + [k], s.keyInputs + [k], s.gates + Numbers(k + 1, |cells| - 1),
      if s.isOut[n] then ReplaceOutput(s.outputs, n, k + 1) else s.outputs)
  }

  function Numbers(from: nat, n: nat): (r: seq<nat>)
    ensures |r| == n && forall i :: 0 <= i < n ==> r[i] == from + i
  {
    seq(n, i requires 0 <= i < n => from + i)
  }

  ghost predicate Lockable(s: State, n: nat, inv: bool) {
    && Valid(s) && n < |s.nodes| && (s.isOut[n] <==> n in s.outputs)
    && (inv ==> IsGate(s.nodes, n) && s.nodes[n].func != Mux)
  }

  ghost predicate CellsShaped(s: State, cells: seq<Node>) {
    && |cells| >= 2 && cells[0] == KeyIn
    && (forall j :: 1 <= j < |cells| ==> cells[j].Gate? && ArityOk(cells[j].func, |cells[j].fanins|))
    && (forall j, a :: 1 <= j < |cells| && a in cells[j].fanins ==> a < |s.nodes| + |cells| && a != |s.nodes| + 1)
  }

  lemma Sizes(s: State, n: nat, inv: bool)
    requires Lockable(s, n, inv)
    ensures n < |s.nodes| == |s.fanouts| == |s.isOut| && (s.isOut[n] ==> n in s.outputs)
  {
  }

  lemma CanSplice(s: State, n: nat, inv: bool)
    requires Lockable(s, n, inv)
    ensures Spliceable(s.nodes, s.fanouts[n], n, inv)
  {
    assert MirrorAt(s.nodes, s.fanouts, n);
    var rank :| Ranked(s.nodes, rank, MaxOf(rank));
    assert !Feeds(s.nodes, n, n);
  }

  lemma KeyedMirror(s: State, n: nat, inv: bool, cells: seq<Node>, a: nat)
    requires Lockable(s, n, inv) && CellsShaped(s, cells) && a < |s.nodes| + |cells|
    ensures MirrorAt(Keyed(s, n, inv, cells).nodes, Keyed(s, n, inv, cells).fanouts, a)
  {
    hide Spliced, Valid, Reading, MirrorAt;
    OldFanouts(s, a, n);
    var k: nat := |s.nodes|;
    var t := Keyed(s, n, inv, cells);
    CanSplice(s, n, inv);
    ReadingShape(cells, k, a);
    var front := FrontFanouts(s, n, a);
    FanoutsAt(s, n, inv, cells, a);
    DisjointNoDup(front, Reading(cells, k, a), k);
    forall g: nat
      ensures g in front + Reading(cells, k, a) <==> Feeds(t.nodes, a, g)
    {
      FeedsKeyed(s, n, inv, cells, a, g);
    }
    MakeMirror(t.nodes, t.fanouts, a, front + Reading(cells, k, a));
  }

  lemma MakeMirror(ns: seq<Node>, fo: seq<seq<nat>>, a: nat, fs: seq<nat>)
    requires a < |fo| && fo[a] == fs && NoDup(fs) && forall g: nat :: g in fs <==> Feeds(ns, a, g)
    ensures MirrorAt(ns, fo, a)
  {
  }

  /** The fanouts among the old nodes. */
  function FrontFanouts(s: State, n: nat, a: nat): seq<nat>
    requires n < |s.nodes| == |s.fanouts|
  {
    if a == |s.nodes| + 1 then s.fanouts[n] else if a < |s.nodes| && a != n then s.fanouts[a] else []
  }

  lemma FanoutsAt(s: State, n: nat, inv: bool, cells: seq<Node>, a: nat)
    requires Lockable(s, n, inv) && |cells| >= 2 && a < |s.nodes| + |cells|
    ensures Keyed(s, n, inv, cells).fanouts[a] == FrontFanouts(s, n, a) + Reading(cells, |s.nodes|, a)
  {
  }

  lemma OldFanouts(s: State, a: nat, n: nat)
    requires Valid(s) && n < |s.nodes|
    ensures |s.fanouts| == |s.isOut| == |s.nodes|
    ensures NoDup(s.fanouts[n]) && forall g: nat :: g in s.fanouts[n] <==> Feeds(s.nodes, n, g)
    ensures a < |s.nodes| ==> NoDup(s.fanouts[a]) && forall g: nat :: g in s.fanouts[a] <==> Feeds(s.nodes, a, g)
    ensures forall g: nat :: Feeds(s.nodes, a, g) ==> a < |s.nodes| && g < |s.nodes|
  {
    assert MirrorAt(s.nodes, s.fanouts, n);
    if a < |s.nodes| {
      assert MirrorAt(s.nodes, s.fanouts, a);
    }
    var rank :| Ranked(s.nodes, rank, MaxOf(rank));
  }

  lemma DisjointNoDup(x: seq<nat>, y: seq<nat>, k: nat)
    requires NoDup(x) && NoDup(y) && (forall g :: g in x ==> g < k) && (forall g :: g in y ==> g >= k)
    ensures NoDup(x + y)
  {
    var z := x + y;
    forall i, j | 0 <= i < j < |z| ensures z[i] != z[j] {
      assert i < |x| ==> z[i] in x;
      assert j >= |x| ==> z[j] in y;
    }
  }

  /** Who feeds whom afterwards. */
  lemma FeedsKeyed(s: State, n: nat, inv: bool, cells: seq<Node>, a: nat, g: nat)
    requires Lockable(s, n, inv) && Spliceable(s.nodes, s.fanouts[n], n, inv) && |cells| >= 2
    ensures Feeds(Keyed(s, n, inv, cells).nodes, a, g) <==>
      if g < |s.nodes| then (if a == |s.nodes| + 1 then g in s.fanouts[n] else a != n && Feeds(s.nodes, a, g))
      else g < |s.nodes| + |cells| && NodeAt(cells[g - |s.nodes|], a)
  {
    SplicedFeeds(s.nodes, s.fanouts[n], n, inv, |s.nodes| + 1, cells, a, g);
  }

  /** The nodes after a splice, one by one. */
  lemma SplicedAt(ns: seq<Node>, fs: seq<nat>, n: nat, inv: bool, e: nat, cells: seq<Node>, g: nat)
    requires n < |ns|
    ensures var t := Spliced(ns, fs, n, inv, e, cells);
      && |t| == |ns| + |cells| && (|ns| <= g < |t| ==> t[g] == cells[g - |ns|])
      && (g < |ns| ==> (IsGate(t, g) <==> IsGate(ns, g)) && (!ns[g].Gate? ==> t[g] == ns[g]))
      && (IsGate(ns, g) ==> |t[g].fanins| == |ns[g].fanins|)
      && (IsGate(ns, g) ==> t[g].func == if g == n && inv then Invert(ns[g].func) else ns[g].func)
  {
  }

  lemma NumbersIn(from: nat, n: nat, x: nat)
    ensures x in Numbers(from, n) <==> from <= x < from + n
  {
    if from <= x < from + n {
      assert Numbers(from, n)[x - from] == x;
    }
  }

  lemma KeyedLists(s: State, n: nat, inv: bool, cells: seq<Node>)
    requires Lockable(s, n, inv) && CellsShaped(s, cells)
    ensures var t := Keyed(s, n, inv, cells);
      && (forall g: nat :: g in t.gates <==> IsGate(t.nodes, g))
      && (forall k :: k in t.keyInputs ==> k < |t.nodes| && t.nodes[k].KeyIn?)
      && (forall a: nat :: a in t.list <==> a < |t.nodes|)
      && (forall g: nat :: IsGate(t.nodes, g) ==> ArityOk(t.nodes[g].func, |t.nodes[g].fanins|))
  {
    hide Spliced, Numbers, MirrorAt, Orderable, ArityOk, NoDup;
    var t := Keyed(s, n, inv, cells);
    var k: nat := |s.nodes|;
    forall g: nat
      ensures g in t.gates <==> IsGate(t.nodes, g)
      ensures g in t.list <==> g < |t.nodes|
      ensures g in t.keyInputs ==> g < |t.nodes| && t.nodes[g].KeyIn?
      ensures IsGate(t.nodes, g) ==> ArityOk(t.nodes[g].func, |t.nodes[g].fanins|)
    {
      NumbersIn(k + 1, |cells| - 1, g);
      NumbersIn(k, |cells|, g);
      SplicedAt(s.nodes, s.fanouts[n], n, inv, k + 1, cells, g);
      if g == n && inv {
        InvertArity(s.nodes[n].func, |s.nodes[n].fanins|);
      }
    }
  }

  lemma KeyedOutputs(s: State, n: nat, inv: bool, cells: seq<Node>)
    requires Lockable(s, n, inv) && CellsShaped(s, cells)
    ensures var t := Keyed(s, n, inv, cells);
      NoDup(t.outputs) && |t.isOut| == |t.nodes| && forall o :: o in t.outputs ==> o < |t.nodes| && t.isOut[o]
  {
    var t := Keyed(s, n, inv, cells);
    assert forall j :: 0 <= j < |s.outputs| ==> s.outputs[j] in s.outputs;
    if s.isOut[n] {
      ReplacedOutputs(s.outputs, n, |s.nodes| + 1);
      forall o | o in t.outputs ensures o < |t.nodes| && t.isOut[o] {
        var j :| 0 <= j < |t.outputs| && t.outputs[j] == o;
      }
    }
  }

  lemma KeyedValid(s: State, n: nat, inv: bool, cells: seq<Node>)
    requires Lockable(s, n, inv) && CellsShaped(s, cells) && Orderable(Keyed(s, n, inv, cells).nodes)
    ensures Valid(Keyed(s, n, inv, cells))
  {
    hide Spliced;
    KeyedLists(s, n, inv, cells);
    KeyedOutputs(s, n, inv, cells);
    forall a: nat | a < |s.nodes| + |cells|
      ensures MirrorAt(Keyed(s, n, inv, cells).nodes, Keyed(s, n, inv, cells).fanouts, a)
    {
      KeyedMirror(s, n, inv, cells, a);
    }
  }

  lemma KeyedSplices(s: State, n: nat, inv: bool, cells: seq<Node>)
    requires Lockable(s, n, inv) && CellsShaped(s, cells)
    ensures Splices(s, Keyed(s, n, inv, cells), n, inv, cells)
  {
    CanSplice(s, n, inv);
    if s.isOut[n] {
      ReplacedOutputs(s.outputs, n, |s.nodes| + 1);
    }
  }

  // ----- acyclicity -----

  /** The new gates read only `n` and new nodes, the key gate not before the inverter. */
  ghost predicate ReadsBehind(s: State, n: nat, cells: seq<Node>) {
    && |cells| >= 2
    && (forall a :: NodeAt(cells[1], a) ==> a == n || a == |s.nodes| || (a == |s.nodes| + 2 && |cells| > 2))
    && (forall j, a :: 2 <= j < |cells| && NodeAt(cells[j], a) ==> a == n)
  }

  function KeyedRank(rank: seq<nat>, n: nat, size: nat): (r: seq<nat>)
    requires n < |rank| && size >= 2
    ensures |r| == |rank| + size
  {
    seq(|rank|, a requires 0 <= a < |rank| => 3 * rank[a]) + [0, 3 * rank[n] + 2] + seq(size - 2, _ => 3 * rank[n] + 1)
  }

  lemma RankStep(s: State, n: nat, inv: bool, cells: seq<Node>, rank: seq<nat>, a: nat, g: nat)
    requires Lockable(s, n, inv) && CellsShaped(s, cells) && ReadsBehind(s, n, cells)
    requires Spliceable(s.nodes, s.fanouts[n], n, inv) && Ranked(s.nodes, rank, MaxOf(rank))
    requires Feeds(Keyed(s, n, inv, cells).nodes, a, g)
    ensures var r := KeyedRank(rank, n, |cells|); a < |r| && g < |r| && r[a] < r[g]
  {
    hide Spliced, Keyed, Valid;
    FeedsKeyed(s, n, inv, cells, a, g);
    if g < |s.nodes| && a == |s.nodes| + 1 {
      assert Feeds(s.nodes, n, g);
    }
  }

  lemma KeyedAcyclic(s: State, n: nat, inv: bool, cells: seq<Node>)
    requires Lockable(s, n, inv) && CellsShaped(s, cells) && ReadsBehind(s, n, cells)
    ensures Orderable(Keyed(s, n, inv, cells).nodes)
  {
    CanSplice(s, n, inv);
    var rank :| Ranked(s.nodes, rank, MaxOf(rank));
    var t := Keyed(s, n, inv, cells).nodes;
    var rank' := KeyedRank(rank, n, |cells|);
    hide Spliced, Keyed, Valid, KeyedRank;
    forall a: nat, g: nat | Feeds(t, a, g)
      ensures a < |t| && rank'[a] < rank'[g]
    {
      RankStep(s, n, inv, cells, rank, a, g);
    }
    assert Ranked(t, rank', MaxOf(rank'));
  }

  // ----- the kinds of key gate -----

  /** `insert_2inp_key_gate`: an and with key bit 1, an or with key bit 0. */
  function AndOrCells(s: State, n: nat, andGate: bool): seq<Node> {
    [KeyIn, Gate(if andGate then And else Or, [n, |s.nodes|], false)]
  }

  /** `insert_key_gate` where no inverter gate is needed. */
  function XorCells(s: State, n: nat, xnor: bool): seq<Node> {
    [KeyIn, Gate(if xnor then Xnor else Xor, [|s.nodes|, n], false)]
  }

  /** `insert_key_gate` behind an input that has to be inverted. */
  function XorInvCells(s: State, n: nat, xnor: bool): seq<Node> {
    [KeyIn, Gate(if xnor then Xnor else Xor, [|s.nodes|, |s.nodes| + 2], false), Gate(Not, [n], false)]
  }

  /** `insert_mux_key_gate` and the choice of its other input. */
  function MuxCells(s: State, n: nat, val: bool, other: nat): seq<Node> {
    [KeyIn, Gate(Mux, if val then [|s.nodes|, other, n] else [|s.nodes|, n, other], false)]
  }

  lemma CellAt(s: State, n: nat, inv: bool, cells: seq<Node>, j: nat)
    requires Lockable(s, n, inv) && j < |cells| && |cells| >= 2
    ensures Keyed(s, n, inv, cells).nodes[|s.nodes| + j] == cells[j]
    ensures |Keyed(s, n, inv, cells).nodes| == |s.nodes| + |cells|
  {
    hide Spliced, Valid, KeyedFanouts;
    Sizes(s, n, inv);
    SplicedAt(s.nodes, s.fanouts[n], n, inv, |s.nodes| + 1, cells, |s.nodes| + j);
  }

  /** A lone key gate holds exactly if it gives back the old value of `n`. */
  ghost predicate GateGivesBack(s: State, n: nat, inv: bool, g: Node, v: bool) {
    g.Gate? && ArityOk(g.func, |g.fanins|) &&
    forall w': Model :: Bit(w', |s.nodes|) == v ==> Apply(g.func, Vals(w', g.fanins)) == (Bit(w', n) != inv)
  }

  lemma LoneGivesBack(s: State, t: State, n: nat, inv: bool, g: Node, v: bool)
    requires |t.nodes| == |s.nodes| + 2 && t.nodes[|s.nodes| + 1] == g && GateGivesBack(s, n, inv, g, v)
    ensures GivesBack(s, t, n, inv, v)
  {
    forall w' | CellsFit(s, t, w') && Bit(w', |s.nodes|) == v
      ensures Bit(w', |s.nodes| + 1) == (Bit(w', n) != inv)
    {
      assert IsGate(t.nodes, |s.nodes| + 1);
    }
  }

  lemma LoneExists(s: State, t: State, n: nat, inv: bool, g: Node, v: bool, w: Model)
    requires |t.nodes| == |s.nodes| + 2 && t.nodes[|s.nodes|] == KeyIn && t.nodes[|s.nodes| + 1] == g
    requires GateGivesBack(s, n, inv, g, v) && |w| == |s.nodes| && n < |w|
    ensures exists w' :: CellsFor(s, t, n, inv, v, w, w')
  {
    var w' := w[n := w[n] != inv] + [v, w[n]];
    assert Bit(w', |s.nodes|) == v;
    assert CellsFor(s, t, n, inv, v, w, w');
  }

  /** A splice with a lone key gate that gives back its node's value locks the circuit. */
  lemma LoneGateLocks(s: State, n: nat, inv: bool, g: Node, v: bool)
    requires Lockable(s, n, inv) && CellsShaped(s, [KeyIn, g]) && GateGivesBack(s, n, inv, g, v)
    ensures Locks(s, Keyed(s, n, inv, [KeyIn, g]), [v])
  {
    var cells := [KeyIn, g];
    var k: nat := |s.nodes|;
    var t := Keyed(s, n, inv, cells);
    KeyedSplices(s, n, inv, cells);
    CellAt(s, n, inv, cells, 0);
    CellAt(s, n, inv, cells, 1);
    hide Valid, Spliced, Splices, Keyed, Locks;
    LoneGivesBack(s, t, n, inv, g, v);
    forall w: Model | |w| == k
      ensures exists w' :: CellsFor(s, t, n, inv, v, w, w')
    {
      LoneExists(s, t, n, inv, g, v, w);
    }
    hide CellsFor, GateGivesBack;
    SpliceLocks(s, t, n, inv, cells, v);
  }

  lemma AndOrLocks(s: State, n: nat, andGate: bool)
    requires Lockable(s, n, false)
    ensures Locks(s, Keyed(s, n, false, AndOrCells(s, n, andGate)), [andGate])
    ensures Valid(Keyed(s, n, false, AndOrCells(s, n, andGate)))
  {
    var cells := AndOrCells(s, n, andGate);
    forall w': Model | Bit(w', |s.nodes|) == andGate
      ensures Apply(cells[1].func, Vals(w', cells[1].fanins)) == Bit(w', n)
    {
      AllTrueMembers(w', [n, |s.nodes|]);
      var ins := [n, |s.nodes|];
      assert ins[0] in ins && ins[1] in ins;
    }
    LoneGateLocks(s, n, false, cells[1], andGate);
    KeyedAcyclic(s, n, false, cells);
    KeyedValid(s, n, false, cells);
  }

  /** The gate's function is inverted exactly if the key bit would invert the value. */
  lemma XorLocks(s: State, n: nat, xnor: bool, val: bool)
    requires Lockable(s, n, val != xnor)
    ensures Locks(s, Keyed(s, n, val != xnor, XorCells(s, n, xnor)), [val])
    ensures Valid(Keyed(s, n, val != xnor, XorCells(s, n, xnor)))
  {
    var cells := XorCells(s, n, xnor);
    forall w': Model | Bit(w', |s.nodes|) == val
      ensures Apply(cells[1].func, Vals(w', cells[1].fanins)) == (Bit(w', n) != (val != xnor))
    {
      assert Vals(w', [|s.nodes|, n]) == [Bit(w', |s.nodes|), Bit(w', n)];
    }
    LoneGateLocks(s, n, val != xnor, cells[1], val);
    KeyedAcyclic(s, n, val != xnor, cells);
    KeyedValid(s, n, val != xnor, cells);
  }

  lemma XorInvCellsFit(s: State, n: nat, xnor: bool, w': Model)
    requires Lockable(s, n, false) && |w'| == |s.nodes| + 3
    ensures CellsFit(s, Keyed(s, n, false, XorInvCells(s, n, xnor)), w') <==>
      && Bit(w', |s.nodes| + 2) == !Bit(w', n)
      && Bit(w', |s.nodes| + 1) == ((Bit(w', |s.nodes|) != Bit(w', |s.nodes| + 2)) != xnor)
  {
    hide Valid, Keyed;
    Sizes(s, n, false);
    var cells := XorInvCells(s, n, xnor);
    var k: nat := |s.nodes|;
    var t := Keyed(s, n, false, cells);
    CellAt(s, n, false, cells, 0);
    CellAt(s, n, false, cells, 1);
    CellAt(s, n, false, cells, 2);
    assert IsGate(t.nodes, k + 1) && IsGate(t.nodes, k + 2) && !IsGate(t.nodes, k);
    assert Vals(w', [k, k + 2]) == [Bit(w', k), Bit(w', k + 2)] && Vals(w', [n]) == [Bit(w', n)];
    if GateFits(t.nodes, w', k + 1) && GateFits(t.nodes, w', k + 2) {
      forall h: nat | h >= k && IsGate(t.nodes, h) ensures GateFits(t.nodes, w', h) {
        assert h == k + 1 || h == k + 2;
      }
    }
  }

  lemma XorInvLocks(s: State, n: nat, xnor: bool, val: bool)
    requires Lockable(s, n, false) && val != xnor
    ensures Locks(s, Keyed(s, n, false, XorInvCells(s, n, xnor)), [val])
    ensures Valid(Keyed(s, n, false, XorInvCells(s, n, xnor)))
  {
    hide Valid, Splices, Keyed, CellsFit, Locks, Orderable;
    Sizes(s, n, false);
    var cells := XorInvCells(s, n, xnor);
    var k: nat := |s.nodes|;
    var t := Keyed(s, n, false, cells);
    KeyedSplices(s, n, false, cells);
    KeyedAcyclic(s, n, false, cells);
    KeyedValid(s, n, false, cells);
    CellAt(s, n, false, cells, 0);
    assert GivesBack(s, t, n, false, val) by {
      forall w' | CellsFit(s, t, w') && Bit(w', k) == val
        ensures Bit(w', k + 1) == Bit(w', n)
      {
        FitSize(s, t, w');
        XorInvCellsFit(s, n, xnor, w');
      }
    }
    assert CellsExist(s, t, n, false, val) by {
      forall w: Model | |w| == k
        ensures exists w' :: CellsFor(s, t, n, false, val, w, w')
      {
        var w' := w + [val, w[n], !w[n]];
        XorInvCellsFit(s, n, xnor, w');
        assert CellsFor(s, t, n, false, val, w, w');
      }
    }
    SpliceLocks(s, t, n, false, cells, val);
  }

  lemma FitSize(s: State, t: State, w': Model)
    requires CellsFit(s, t, w')
    ensures |w'| == |t.nodes|
  {
  }

  /** A multiplexer locks whatever its other input; only cycles have to be kept out. */
  lemma MuxLocks(s: State, n: nat, val: bool, other: nat)
    requires Lockable(s, n, false) && other < |s.nodes|
    requires Orderable(Keyed(s, n, false, MuxCells(s, n, val, other)).nodes)
    ensures Locks(s, Keyed(s, n, false, MuxCells(s, n, val, other)), [val])
    ensures Valid(Keyed(s, n, false, MuxCells(s, n, val, other)))
  {
    hide Valid, Keyed, Locks, Orderable, GateGivesBack;
    Sizes(s, n, false);
    var cells := MuxCells(s, n, val, other);
    MuxGivesBack(s, n, val, other);
    LoneGateLocks(s, n, false, cells[1], val);
    KeyedValid(s, n, false, cells);
  }

  lemma MuxGivesBack(s: State, n: nat, val: bool, other: nat)
    ensures GateGivesBack(s, n, false, MuxCells(s, n, val, other)[1], val)
  {
    var g := MuxCells(s, n, val, other)[1];
    var k: nat := |s.nodes|;
    forall w': Model | Bit(w', k) == val
      ensures Apply(g.func, Vals(w', g.fanins)) == Bit(w', n)
    {
      assert Vals(w', [k, other, n]) == [Bit(w', k), Bit(w', other), Bit(w', n)];
      assert Vals(w', [k, n, other]) == [Bit(w', k), Bit(w', n), Bit(w', other)];
    }
  }

  // ----- in place -----

  /** The circuit after `create_key_input`. */
  function WithKey(s: State): State {
    var k := |s.nodes|;
    State(s.nodes + [KeyIn], s.fanouts + [[]], s.isOut + [false], s.list + [k], s.inputs + [k], s.keyInputs + [k],
      s.gates, s.outputs)
  }

  lemma NotEarlier(fs: seq<nat>, i: nat)
    requires NoDup(fs) && i < |fs|
    ensures fs[i] !in fs[..i]
  {
    forall j | 0 <= j < i ensures fs[..i][j] != fs[i] {
    }
  }

  /** Fanouts with a lone key gate that reads `n` and its key. */
  function LoneFanouts(fo: seq<seq<nat>>, n: nat): seq<seq<nat>>
    requires n < |fo|
  {
    fo[n := [|fo| + 1]] + [[|fo| + 1], fo[n]]
  }

  lemma LoneSteps(fo: seq<seq<nat>>, n: nat)
    requires n < |fo|
    ensures var k: nat := |fo|;
      AddFanout(AddFanout((fo + [[]] + [[]])[k + 1 := fo[n]][n := []], k, k + 1), n, k + 1) == LoneFanouts(fo, n)
  {
    var k: nat := |fo|;
    var base := (fo + [[]] + [[]])[k + 1 := fo[n]][n := []];
    assert base[k] == [] && base[n] == [];
    var one := [k + 1];
    assert [] + one == one;
    var base1 := AddFanout(base, k, k + 1);
    assert base1 == base[k := one];
    assert AddFanout(base1, n, k + 1) == base1[n := one];
    assert base1[n := one] == LoneFanouts(fo, n);
  }

  lemma LoneReading(g: Node, k: nat, a: nat)
    ensures Reading([KeyIn, g], k, a) == if NodeAt(g, a) then [k + 1] else []
  {
    var cells := [KeyIn, g];
    assert cells[..1] == [KeyIn] && [KeyIn][..0] == [];
    assert Reading([KeyIn], k, a) == [];
  }

  lemma LoneKeyed(s: State, n: nat, g: Node)
    requires n < |s.nodes| == |s.fanouts| && g.Gate? && forall a: nat :: a in g.fanins <==> a == n || a == |s.nodes|
    ensures KeyedFanouts(s, n, [KeyIn, g]) == LoneFanouts(s.fanouts, n)
  {
    var k: nat := |s.nodes|;
    forall a | 0 <= a < k + 2
      ensures KeyedFanouts(s, n, [KeyIn, g])[a] == LoneFanouts(s.fanouts, n)[a]
    {
      LoneReading(g, k, a);
    }
  }

  lemma MuxKeyed(s: State, n: nat, g: Node, other: nat)
    requires n < |s.nodes| == |s.fanouts| && other < |s.nodes| && g.Gate? && |s.nodes| + 1 !in s.fanouts[other]
    requires forall a: nat :: a in g.fanins <==> a == n || a == |s.nodes| || a == other
    ensures KeyedFanouts(s, n, [KeyIn, g]) == AddFanout(LoneFanouts(s.fanouts, n), other, |s.nodes| + 1)
  {
    var k: nat := |s.nodes|;
    var after := AddFanout(LoneFanouts(s.fanouts, n), other, k + 1);
    assert |after| == k + 2;
    forall a | 0 <= a < k + 2
      ensures KeyedFanouts(s, n, [KeyIn, g])[a] == after[a]
    {
      LoneReading(g, k, a);
    }
  }

  lemma RewiredAppend(ns: seq<Node>, cells: seq<Node>, fs: seq<nat>, x: nat, y: nat)
    requires forall f :: f in fs ==> f < |ns|
    ensures BP.Rewired(ns + cells, fs, x, y) == BP.Rewired(ns, fs, x, y) + cells
  {
  }

  class LockCkt {
    var nodes: seq<Node>
    var fanouts: seq<seq<nat>>
    var isOut: seq<bool>
    var nodeList: seq<nat>
    var inputs: seq<nat>
    var keyInputs: seq<nat>
    var gates: seq<nat>
    var outputs: seq<nat>

    function St(): State
      reads this
    {
      State(nodes, fanouts, isOut, nodeList, inputs, keyInputs, gates, outputs)
    }

    /** `create_key_input`. */
    method CreateKeyInput() returns (ki: nat)
      modifies this
      ensures ki == |old(nodes)| && St() == WithKey(old(St()))
    {
      ki := |nodes|;
      nodes, fanouts, isOut := nodes + [KeyIn], fanouts + [[]], isOut + [false];
      nodeList := nodeList + [ki];
      inputs := inputs + [ki];
      keyInputs := keyInputs + [ki];
    }

    /** `create_gate` and `add_gate`. */
    method NewGate(g: Node) returns (kg: nat)
      modifies this`nodes, this`fanouts, this`isOut, this`nodeList, this`gates
      ensures kg == |old(nodes)| && nodes == old(nodes) + [g] && fanouts == old(fanouts) + [[]]
      ensures isOut == old(isOut) + [false] && nodeList == old(nodeList) + [kg] && gates == old(gates) + [kg]
    {
      kg := |nodes|;
      nodes, fanouts, isOut := nodes + [g], fanouts + [[]], isOut + [false];
      nodeList := nodeList + [kg];
      gates := gates + [kg];
    }

    /** An output of `n` is taken over by the newest node `kg`; the flag of `n` stays. */
    method TakeOutput(n: nat, kg: nat)
      requires n < |isOut| && kg < |isOut| && n != kg && (isOut[n] ==> n in outputs)
      modifies this`isOut, this`outputs
      ensures isOut == if old(isOut)[n] then old(isOut)[kg := true] else old(isOut)
      ensures outputs == if old(isOut)[n] then ReplaceOutput(old(outputs), n, kg) else old(outputs)
    {
      if isOut[n] {
        isOut := isOut[kg := true];
        outputs := ReplaceOutput(outputs, n, kg);
      }
    }

    /** `add_fanout`. */
    method AddFanoutTo(a: nat, g: nat)
      requires a < |fanouts|
      modifies this`fanouts
      ensures |fanouts| == |old(fanouts)| && fanouts == AddFanout(old(fanouts), a, g)
    {
      if g !in fanouts[a] {
        fanouts := fanouts[a := fanouts[a] + [g]];
      }
    }

    /** `rewrite_fanouts_with`. */
    method RewriteFanoutsWith(n: nat, kg: nat)
      requires n < |fanouts| && kg < |fanouts| && n != kg && fanouts[kg] == [] && NoDup(fanouts[n])
      requires forall f :: f in fanouts[n] ==> Feeds(nodes, n, f)
      modifies this`nodes, this`fanouts
      ensures nodes == BP.Rewired(old(nodes), old(fanouts)[n], n, kg)
      ensures fanouts == old(fanouts)[kg := old(fanouts)[n]][n := []]
    {
      ghost var ns0, fo0 := nodes, fanouts;
      var fs := fanouts[n];
      for i := 0 to |fs|
        invariant nodes == BP.Rewired(ns0, fs[..i], n, kg) && fanouts == fo0[kg := fs[..i]]
      {
        var fout := fs[i];
        assert fout in fs && Feeds(ns0, n, fout);
        NotEarlier(fs, i);
        assert fs[..i + 1] == fs[..i] + [fout];
        assert n in nodes[fout].fanins;
        nodes := nodes[fout := nodes[fout].(fanins := BP.Replace(nodes[fout].fanins, n, kg))];
        AddFanoutTo(kg, fout);
      }
      assert fs[..|fs|] == fs;
      fanouts := fanouts[n := []];
    }

    /** A gate over `n` and the key input just created, which takes over the outputs and fanouts of `n`. */
    method InsertLone(n: nat, ki: nat, g: Node, ghost s: State) returns (kg: nat)
      requires Lockable(s, n, false) && St() == WithKey(s) && ki == |s.nodes|
      requires g.Gate? && (g.fanins == [n, ki] || g.fanins == [ki, n])
      modifies this
      ensures kg == ki + 1 && St() == Keyed(s, n, false, [KeyIn, g])
    {
      hide Lockable, Spliced, BP.Rewired, KeyedFanouts, ReplaceOutput, Keyed, LoneFanouts, AddFanout;
      Facts(s, n);
      kg := NewGate(g);
      FanoutsStill(s, n, [KeyIn, g]);
      assert nodes == s.nodes + [KeyIn, g] && fanouts[n] == s.fanouts[n];
      TakeOutput(n, kg);
      RewriteFanoutsWith(n, kg);
      AddFanoutTo(ki, kg);
      AddFanoutTo(n, kg);
      LoneSteps(s.fanouts, n);
      LoneKeyed(s, n, g);
      KeyedParts(s, n, false, g);
      assert isOut == s.isOut + [false] + [s.isOut[n]];
    }

    /** `insert_2inp_key_gate`, with the key input just created. */
    method Insert2InpKeyGate(ki: nat, n: nat, func: Func, ghost s: State)
      requires Lockable(s, n, false) && St() == WithKey(s) && ki == |s.nodes|
      modifies this
      ensures St() == Keyed(s, n, false, [KeyIn, Gate(func, [n, ki], false)])
    {
      hide Lockable, WithKey, Keyed;
      var kg := InsertLone(n, ki, Gate(func, [n, ki], false), s);
    }

    /** `insert_key_gate`: xor or xnor, and an inversion where the key bit does not match it. */
    method InsertKeyGate(n: nat, ki: nat, val: bool, xnor: bool, ghost s: State)
      requires Lockable(s, n, false) && St() == WithKey(s) && ki == |s.nodes|
      requires val != xnor && s.nodes[n].Gate? ==> s.nodes[n].func != Mux
      modifies this
      ensures St() == XorKeyed(s, n, val, xnor)
    {
      Facts(s, n);
      hide Lockable, Spliced, BP.Rewired, KeyedFanouts, ReplaceOutput, Keyed;
      if val != xnor && !nodes[n].Gate? {
        InsertInverted(n, ki, val, xnor, s);
        return;
      }
      var f := if xnor then Xnor else Xor;
      ghost var g := Gate(f, [ki, n], false);
      var kg := OpenKeyGate(n, ki, f, s);
      RewriteThenFeed(n, kg, f, s);
      InvertSpliced(s, n, val != xnor, [KeyIn, g]);
      if val != xnor {
        nodes := nodes[n := nodes[n].(func := Invert(nodes[n].func))];
      }
      LoneKeyed(s, n, g);
      KeyedParts(s, n, val != xnor, g);
      assert isOut == s.isOut + [false] + [s.isOut[n]];
    }

    /** A key gate with only its key as input so far, which takes over an output of `n`. */
    method OpenKeyGate(n: nat, ki: nat, f: Func, ghost s: State) returns (kg: nat)
      requires |s.fanouts| == |s.isOut| == |s.nodes| && n < |s.nodes| && (s.isOut[n] ==> n in s.outputs)
      requires St() == WithKey(s) && ki == |s.nodes|
      modifies this
      ensures kg == |s.nodes| + 1 && nodes == s.nodes + [KeyIn, Gate(f, [ki], false)]
      ensures fanouts == AddFanout(s.fanouts + [[]] + [[]], ki, kg)
      ensures isOut == s.isOut + [false] + [s.isOut[n]]
      ensures outputs == if s.isOut[n] then ReplaceOutput(s.outputs, n, kg) else s.outputs
      ensures nodeList == s.list + [ki] + [kg] && gates == s.gates + [kg]
      ensures inputs == s.inputs + [ki] && keyInputs == s.keyInputs + [ki]
    {
      kg := NewGate(Gate(f, [ki], false));
      AddFanoutTo(ki, kg);
      assert nodes == s.nodes + [KeyIn, Gate(f, [ki], false)];
      TakeOutput(n, kg);
    }

    /** The key gate takes over the fanouts of `n` and gets `n` as its last input. */
    method RewriteThenFeed(n: nat, kg: nat, f: Func, ghost s: State)
      requires Lockable(s, n, false) && kg == |s.nodes| + 1
      requires nodes == s.nodes + [KeyIn, Gate(f, [|s.nodes|], false)]
      requires fanouts == AddFanout(s.fanouts + [[]] + [[]], |s.nodes|, kg)
      modifies this`nodes, this`fanouts
      ensures nodes == Spliced(s.nodes, s.fanouts[n], n, false, kg, [KeyIn, Gate(f, [|s.nodes|, n], false)])
      ensures fanouts == LoneFanouts(s.fanouts, n)
    {
      hide Lockable, Spliced, BP.Rewired, AddFanout, LoneFanouts;
      Facts(s, n);
      EarlyFanouts(s.fanouts, n);
      ghost var cells := [KeyIn, Gate(f, [|s.nodes|], false)];
      FanoutsStill(s, n, cells);
      RewriteFanoutsWith(n, kg);
      SplicedTail(s.nodes, s.fanouts[n], n, kg, cells, [KeyIn, Gate(f, [|s.nodes|, n], false)]);
      assert nodes[kg].fanins + [n] == [|s.nodes|, n];
      nodes := nodes[kg := nodes[kg].(fanins := nodes[kg].fanins + [n])];
      AddFanoutTo(n, kg);
      LoneStepsEarly(s.fanouts, n);
    }

    /** `insert_key_gate` behind an input that has to be inverted: by a gate of its own. */
    method InsertInverted(n: nat, ki: nat, val: bool, xnor: bool, ghost s: State)
      requires Lockable(s, n, false) && St() == WithKey(s) && ki == |s.nodes| && val != xnor
      modifies this
      ensures St() == Keyed(s, n, false, XorInvCells(s, n, xnor))
    {
      hide Lockable, Spliced, BP.Rewired, KeyedFanouts, ReplaceOutput, Keyed, AddFanout, InvFanouts;
      Facts(s, n);
      EarlyFanouts(s.fanouts, n);
      var f := if xnor then Xnor else Xor;
      var kg := OpenKeyGate(n, ki, f, s);
      FanoutsStill(s, n, [KeyIn, Gate(f, [ki], false)]);
      RewriteFanoutsWith(n, kg);
      FeedInverter(n, kg, f, s);
      InvKeyed(s, n, xnor);
      InvParts(s, n, xnor);
      assert isOut == s.isOut + [false] + [s.isOut[n]] + [false];
    }

    /** The inverter between `n` and the key gate. */
    method FeedInverter(n: nat, kg: nat, f: Func, ghost s: State)
      requires Lockable(s, n, false) && kg == |s.nodes| + 1 && |fanouts| == |nodes| == |s.nodes| + 2
      requires nodes == Spliced(s.nodes, s.fanouts[n], n, false, kg, [KeyIn, Gate(f, [|s.nodes|], false)])
      requires fanouts == AddFanout(s.fanouts + [[]] + [[]], |s.nodes|, kg)[kg := s.fanouts[n]][n := []]
      modifies this`nodes, this`fanouts, this`isOut, this`nodeList, this`gates
      ensures nodes == Spliced(s.nodes, s.fanouts[n], n, false, kg,
        [KeyIn, Gate(f, [|s.nodes|, |s.nodes| + 2], false), Gate(Not, [n], false)])
      ensures fanouts == InvFanouts(s.fanouts, n)
      ensures isOut == old(isOut) + [false] && nodeList == old(nodeList) + [kg + 1] && gates == old(gates) + [kg + 1]
    {
      hide Lockable, Spliced, BP.Rewired, AddFanout;
      Facts(s, n);
      var inv := NewGate(Gate(Not, [n], false));
      SplicedInv(s.nodes, s.fanouts[n], n, kg, f);
      AddFanoutTo(n, inv);
      assert nodes[kg] == Gate(f, [|s.nodes|], false);
      assert nodes[kg].fanins + [inv] == [|s.nodes|, |s.nodes| + 2];
      nodes := nodes[kg := nodes[kg].(fanins := nodes[kg].fanins + [inv])];
      AddFanoutTo(inv, kg);
      InvSteps(s.fanouts, n);
    }

    /** `insert_mux_key_gate`: the other input is still open. */
    method InsertMuxKeyGate(ki: nat, n: nat, ghost s: State) returns (kg: nat)
      requires Lockable(s, n, false) && St() == WithKey(s) && ki == |s.nodes|
      modifies this
      ensures kg == ki + 1 && St() == Keyed(s, n, false, [KeyIn, Gate(Mux, [ki, n], false)])
    {
      hide Lockable, WithKey, Keyed;
      kg := InsertLone(n, ki, Gate(Mux, [ki, n], false), s);
    }

    /**
     `_get_best_other`: of the nodes with a known probability that are no key inputs
     and close no cycle, one whose metric is greatest and positive, if any.  The last
     candidate tried is left in the gate.
     */
    method GetBestOther(n: nat, kg: nat, ki: nat, prob: seq<Option<real>>) returns (best: Option<nat>)
      requires |prob| <= |nodes| && n < |prob| && prob[n].Some? && kg < |nodes| && n != kg
      requires nodes[kg].Gate? && CC.InRange(nodes) && ki < |nodes|
      modifies this`nodes
      ensures |nodes| == |old(nodes)| && nodes[kg].Gate? && nodes == old(nodes)[kg := nodes[kg]]
      ensures nodes[kg].func == old(nodes)[kg].func && nodes[kg].added == old(nodes)[kg].added
      ensures best.Some? ==> Candidate(old(nodes), kg, ki, n, prob, best.value) && Metric(prob, n, best.value) > 0.0
      ensures best.Some? ==>
        forall c: nat :: Candidate(old(nodes), kg, ki, n, prob, c) ==> Metric(prob, n, c) <= Metric(prob, n, best.value)
      ensures best.Some? ==> forall c: nat :: c < best.value && Candidate(old(nodes), kg, ki, n, prob, c) ==>
        Metric(prob, n, c) < Metric(prob, n, best.value)
      ensures best.None? ==> forall c: nat :: Candidate(old(nodes), kg, ki, n, prob, c) ==> Metric(prob, n, c) <= 0.0
    {
      ghost var ns0 := nodes;
      best := None;
      var bestPr := 0.0;
      var i := 0;
      while i != |prob|
        invariant 0 <= i <= |prob| && |nodes| == |ns0| && nodes[kg].Gate? && nodes == ns0[kg := nodes[kg]]
        invariant nodes[kg].func == ns0[kg].func && nodes[kg].added == ns0[kg].added
        invariant best.None? ==> bestPr == 0.0
        invariant best.Some? ==>
          Candidate(ns0, kg, ki, n, prob, best.value) && bestPr == Metric(prob, n, best.value) > 0.0
        invariant forall c: nat :: c < i && Candidate(ns0, kg, ki, n, prob, c) ==> Metric(prob, n, c) <= bestPr
        invariant best.Some? ==> best.value < i
        invariant best.Some? ==> forall c: nat :: c < best.value && Candidate(ns0, kg, ki, n, prob, c) ==>
          Metric(prob, n, c) < bestPr
      {
        var ni := i;
        i := i + 1;
        if nodes[ni].KeyIn? || prob[ni].None? {
          continue;
        }
        nodes := nodes[kg := nodes[kg].(fanins := [ki, n, ni])];
        assert nodes == Tried(ns0, kg, ki, n, ni);
        TriedInRange(ns0, kg, ki, n, ni);
        var search := new CC.CycleSearch(nodes);
        var cyclic := search.HasCycleMarks();
        if cyclic {
          continue;
        }
        var pr := Metric(prob, n, ni);
        if pr > bestPr {
          best := Some(ni);
          bestPr := pr;
        }
      }
    }

    /** The multiplexer gets its inputs in the order the key bit asks for. */
    method FinishMux(n: nat, kg: nat, ki: nat, val: bool, other: nat, ghost o: State)
      requires SameBut(St(), o, kg) && nodes[kg].Gate? && nodes[kg].func == Mux && !nodes[kg].added && other < |fanouts|
      modifies this`nodes, this`fanouts
      ensures St() == Closed(o, kg, Gate(Mux, if val then [ki, other, n] else [ki, n, other], false), other)
    {
      var ins := if val then [ki, other, n] else [ki, n, other];
      nodes := nodes[kg := nodes[kg].(fanins := ins)];
      AddFanoutTo(other, kg);
    }

    /**
     One round of `encodeMuxes`: a key, a multiplexer behind `n`, and its other input.
     `ok` is false when the assertion that some other input was found fails.
     */
    method LockWithMux(n: nat, val: bool, prob: seq<Option<real>>) returns (ok: bool)
      requires Lockable(St(), n, false) && |prob| <= |nodes| && n < |prob| && prob[n].Some?
      modifies this
      ensures ok ==> Valid(St()) && MuxLocked(old(St()), St(), n, val, prob)
      ensures ok ==> Locks(old(St()), St(), [val])
      ensures !ok ==> NoneToChoose(old(St()), n, prob)
    {
      hide Lockable, Keyed, Candidate, Metric, Valid, Locks, WithKey, AddFanout, Closed, MuxLocked, NoneToChoose;
      ghost var s := St();
      Facts(s, n);
      var ki := CreateKeyInput();
      var kg := InsertMuxKeyGate(ki, n, s);
      MuxReady(s, n);
      ghost var open := St();
      var best := GetBestOther(n, kg, ki, prob);
      if best.None? {
        NothingChosen(s, n, open, prob);
        return false;
      }
      MuxFinished(s, n, val, best.value, open, prob);
      FinishMux(n, kg, ki, val, best.value, open);
      ok := true;
    }
  }

  /** Only node `kg` may differ. */
  ghost predicate SameBut(t: State, o: State, kg: nat) {
    kg < |o.nodes| == |t.nodes| && t == o.(nodes := o.nodes[kg := t.nodes[kg]])
  }

  /** The circuit once `kg` is the gate `g`, which also reads `other`. */
  function Closed(o: State, kg: nat, g: Node, other: nat): State
    requires kg < |o.nodes| && other < |o.fanouts|
  {
    o.(nodes := o.nodes[kg := g], fanouts := AddFanout(o.fanouts, other, kg))
  }

  lemma NothingChosen(s: State, n: nat, o: State, prob: seq<Option<real>>)
    requires Insertable(s, n) && o == Opened(s, n)
    requires forall c: nat :: Candidate(o.nodes, |s.nodes| + 1, |s.nodes|, n, prob, c) ==> Metric(prob, n, c) <= 0.0
    ensures NoneToChoose(s, n, prob)
  {
    hide Opened, Candidate, Metric;
  }

  /** With a best other input the round is complete. */
  lemma MuxFinished(s: State, n: nat, val: bool, other: nat, o: State, prob: seq<Option<real>>)
    requires Lockable(s, n, false) && |prob| <= |s.nodes| && Insertable(s, n) && o == Opened(s, n)
    requires Candidate(o.nodes, |s.nodes| + 1, |s.nodes|, n, prob, other) && Metric(prob, n, other) > 0.0
    requires forall c: nat ::
      Candidate(o.nodes, |s.nodes| + 1, |s.nodes|, n, prob, c) ==> Metric(prob, n, c) <= Metric(prob, n, other)
    ensures other < |s.nodes| && |o.nodes| == |s.nodes| + 2 == |o.fanouts|
    ensures var t := Closed(o, |s.nodes| + 1, MuxCells(s, n, val, other)[1], other);
      Valid(t) && Locks(s, t, [val]) && MuxLocked(s, t, n, val, prob)
  {
    hide Lockable, Keyed, Candidate, Metric, Valid, Locks, AddFanout;
    MuxDone(s, n, val, other, o, prob);
    MuxLocks(s, n, val, other);
    assert Chosen(s, n, prob, other);
  }

  predicate Insertable(s: State, n: nat) {
    n < |s.nodes| == |s.fanouts| == |s.isOut| && (s.isOut[n] ==> n in s.outputs)
  }

  /** The circuit once the multiplexer behind `n` has its key and `n` as inputs. */
  function Opened(s: State, n: nat): State
    requires Insertable(s, n)
  {
    Keyed(s, n, false, [KeyIn, Gate(Mux, [|s.nodes|, n], false)])
  }

  /** `other` closes no cycle, and among those that close none it makes the multiplexer toggle most. */
  ghost predicate Chosen(s: State, n: nat, prob: seq<Option<real>>, other: nat) {
    && Insertable(s, n) && Candidate(Opened(s, n).nodes, |s.nodes| + 1, |s.nodes|, n, prob, other)
    && Metric(prob, n, other) > 0.0
    && (forall c: nat :: Candidate(Opened(s, n).nodes, |s.nodes| + 1, |s.nodes|, n, prob, c) ==>
      Metric(prob, n, c) <= Metric(prob, n, other))
  }

  ghost predicate NoneToChoose(s: State, n: nat, prob: seq<Option<real>>) {
    && Insertable(s, n)
    && (forall c: nat :: Candidate(Opened(s, n).nodes, |s.nodes| + 1, |s.nodes|, n, prob, c) ==>
      Metric(prob, n, c) <= 0.0)
  }

  /** `t` is `s` with a multiplexer behind `n`, whose other input is a best one. */
  ghost predicate MuxLocked(s: State, t: State, n: nat, val: bool, prob: seq<Option<real>>) {
    && Insertable(s, n)
    && exists other: nat ::
         Chosen(s, n, prob, other) && other < |s.nodes| && t == Keyed(s, n, false, MuxCells(s, n, val, other))
  }

  lemma MuxReady(s: State, n: nat)
    requires Lockable(s, n, false)
    ensures var k: nat := |s.nodes|; var t := Keyed(s, n, false, [KeyIn, Gate(Mux, [k, n], false)]);
      |t.nodes| == k + 2 && t.nodes[k + 1] == Gate(Mux, [k, n], false) && CC.InRange(t.nodes)
  {
    var k: nat := |s.nodes|;
    var cells := [KeyIn, Gate(Mux, [k, n], false)];
    CellAt(s, n, false, cells, 1);
    CanSplice(s, n, false);
    var t := Keyed(s, n, false, cells);
    hide Valid, Spliced, Keyed;
    forall a: nat, g: nat | Feeds(t.nodes, a, g) ensures a < |t.nodes| {
      FeedsKeyed(s, n, false, cells, a, g);
    }
  }

  /** The multiplexer before and after its other input is put in. */
  lemma MuxState(s: State, n: nat, val: bool, other: nat, o: State)
    requires Lockable(s, n, false) && other < |s.nodes|
    requires o == Keyed(s, n, false, [KeyIn, Gate(Mux, [|s.nodes|, n], false)])
    ensures var k: nat := |s.nodes|; var t := Keyed(s, n, false, MuxCells(s, n, val, other));
      && |o.nodes| == k + 2 == |o.fanouts|
      && t == State(
          o.nodes[k + 1 := MuxCells(s, n, val, other)[1]], AddFanout(o.fanouts, other, k + 1),
          o.isOut, o.list, o.inputs, o.keyInputs, o.gates, o.outputs)
  {
    var k: nat := |s.nodes|;
    var g := MuxCells(s, n, val, other)[1];
    var g0 := Gate(Mux, [k, n], false);
    OldFanouts(s, other, n);
    assert k + 1 !in s.fanouts[other];
    hide Keyed, Spliced, Valid, KeyedFanouts, LoneFanouts, ReplaceOutput, AddFanout;
    LoneKeyed(s, n, g0);
    MuxKeyed(s, n, g, other);
    KeyedParts(s, n, false, g);
    KeyedParts(s, n, false, g0);
    SplicedTail(s.nodes, s.fanouts[n], n, k + 1, [KeyIn, g0], [KeyIn, g]);
  }

  /** The order of the two inputs does not matter for cycles. */
  lemma TriedAcyclic(ns: seq<Node>, kg: nat, ki: nat, n: nat, c: nat, ins: seq<nat>)
    requires kg < |ns| && ns[kg].Gate? && Orderable(Tried(ns, kg, ki, n, c))
    requires forall a :: a in ins <==> a in [ki, n, c]
    ensures Orderable(ns[kg := Gate(Mux, ins, false)])
  {
    var tried := Tried(ns, kg, ki, n, c);
    var done := ns[kg := Gate(Mux, ins, false)];
    var rank :| Ranked(tried, rank, MaxOf(rank));
    forall a: nat, h: nat | Feeds(done, a, h)
      ensures Feeds(tried, a, h)
    {
    }
    assert Ranked(done, rank, MaxOf(rank));
  }

  /** With the chosen input the multiplexer is complete, and no cycle was closed. */
  lemma MuxDone(s: State, n: nat, val: bool, other: nat, o: State, prob: seq<Option<real>>)
    requires Lockable(s, n, false) && |prob| <= |s.nodes|
    requires o == Keyed(s, n, false, [KeyIn, Gate(Mux, [|s.nodes|, n], false)])
    requires Candidate(o.nodes, |s.nodes| + 1, |s.nodes|, n, prob, other)
    ensures other < |s.nodes| && |o.nodes| == |s.nodes| + 2 == |o.fanouts|
    ensures var k: nat := |s.nodes|; var t := Keyed(s, n, false, MuxCells(s, n, val, other));
      && t == State(
          o.nodes[k + 1 := MuxCells(s, n, val, other)[1]], AddFanout(o.fanouts, other, k + 1),
          o.isOut, o.list, o.inputs, o.keyInputs, o.gates, o.outputs)
      && Orderable(t.nodes)
  {
    hide Keyed, Lockable;
    MuxState(s, n, val, other, o);
    TriedAcyclic(o.nodes, |s.nodes| + 1, |s.nodes|, n, other, MuxCells(s, n, val, other)[1].fanins);
  }

  /** `kg` with candidate `c` as its third input. */
  function Tried(ns: seq<Node>, kg: nat, ki: nat, n: nat, c: nat): (r: seq<Node>)
    requires kg < |ns| && ns[kg].Gate?
    ensures |r| == |ns|
  {
    ns[kg := ns[kg].(fanins := [ki, n, c])]
  }

  /** The probability of value `b` for a bit that is 1 with probability `p`. */
  function Weight(p: real, b: bool): real {
    if b then p else 1.0 - p
  }

  /** What values `a` and `b` of two independent bits add to the probability of `event`. */
  function Share(p: real, q: real, event: (bool, bool) -> bool, a: bool, b: bool): real {
    if event(a, b) then Weight(p, a) * Weight(q, b) else 0.0
  }

  /** The probability of an event on two independent bits. */
  function Chance(p: real, q: real, event: (bool, bool) -> bool): real {
    Share(p, q, event, true, true) + Share(p, q, event, true, false) + Share(p, q, event, false, true)
    + Share(p, q, event, false, false)
  }

  /** The metric of the encoder is the probability that the two inputs of the multiplexer differ. */
  lemma MetricIsDiffering(prob: seq<Option<real>>, n: nat, c: nat)
    requires n < |prob| && c < |prob| && prob[n].Some? && prob[c].Some?
    ensures Metric(prob, n, c) == Chance(prob[n].value, prob[c].value, (a, b) => a != b)
  {
    var p, q := prob[n].value, prob[c].value;
    var differ := (a: bool, b: bool) => a != b;
    assert Share(p, q, differ, true, true) == 0.0 && Share(p, q, differ, false, false) == 0.0;
    assert Share(p, q, differ, true, false) == p * (1.0 - q);
    assert Share(p, q, differ, false, true) == (1.0 - p) * q;
    assert (1.0 - p) * q == q * (1.0 - p);
  }

  function Metric(prob: seq<Option<real>>, n: nat, c: nat): real {
    if n < |prob| && c < |prob| && prob[n].Some? && prob[c].Some?
    then prob[n].value * (1.0 - prob[c].value) + prob[c].value * (1.0 - prob[n].value) else 0.0
  }

  ghost predicate Candidate(ns: seq<Node>, kg: nat, ki: nat, n: nat, prob: seq<Option<real>>, c: nat) {
    && c < |prob| <= |ns| && !ns[c].KeyIn? && prob[c].Some?
    && kg < |ns| && ns[kg].Gate? && Orderable(Tried(ns, kg, ki, n, c))
  }

  lemma TriedInRange(ns: seq<Node>, kg: nat, ki: nat, n: nat, c: nat)
    requires CC.InRange(ns) && kg < |ns| && ns[kg].Gate? && ki < |ns| && n < |ns| && c < |ns|
    ensures CC.InRange(Tried(ns, kg, ki, n, c))
  {
    var t := Tried(ns, kg, ki, n, c);
    forall a: nat, g: nat | Feeds(t, a, g) ensures a < |t| {
      assert g != kg ==> Feeds(ns, a, g);
    }
  }

  /** What `insert_key_gate` makes of the circuit. */
  function XorKeyed(s: State, n: nat, val: bool, xnor: bool): State
    requires n < |s.nodes| == |s.fanouts| == |s.isOut| && (s.isOut[n] ==> n in s.outputs)
  {
    if val != xnor && !s.nodes[n].Gate? then Keyed(s, n, false, XorInvCells(s, n, xnor))
    else Keyed(s, n, val != xnor, XorCells(s, n, xnor))
  }

  lemma SplicedTail(ns: seq<Node>, fs: seq<nat>, n: nat, kg: nat, cells: seq<Node>, cells': seq<Node>)
    requires n < |ns| && kg == |ns| + 1 && |cells| == |cells'| == 2 && cells[0] == cells'[0]
    ensures Spliced(ns, fs, n, false, kg, cells)[kg] == cells[1]
    ensures Spliced(ns, fs, n, false, kg, cells)[kg := cells'[1]] == Spliced(ns, fs, n, false, kg, cells')
  {
  }

  /** Inverting `n` after the splice is the same as before it: `n` does not read the key gate. */
  lemma InvertSpliced(s: State, n: nat, inv: bool, cells: seq<Node>)
    requires Lockable(s, n, false) && |cells| >= 2
    ensures |Spliced(s.nodes, s.fanouts[n], n, false, |s.nodes| + 1, cells)| == |s.nodes| + |cells|
    ensures var t := Spliced(s.nodes, s.fanouts[n], n, false, |s.nodes| + 1, cells);
      && Inverted(t, n, inv) == Spliced(s.nodes, s.fanouts[n], n, inv, |s.nodes| + 1, cells)
      && t[n].Gate? == s.nodes[n].Gate?
  {
  }

  /** Fanouts with an inverter between `n` and the key gate. */
  function InvFanouts(fo: seq<seq<nat>>, n: nat): seq<seq<nat>>
    requires n < |fo|
  {
    fo[n := [|fo| + 2]] + [[|fo| + 1], fo[n], [|fo| + 1]]
  }

  lemma InvSteps(fo: seq<seq<nat>>, n: nat)
    requires n < |fo|
    ensures var k: nat := |fo|; var moved := AddFanout(fo + [[]] + [[]], k, k + 1)[k + 1 := fo[n]][n := []];
      AddFanout(AddFanout(moved + [[]], n, k + 2), k + 2, k + 1) == InvFanouts(fo, n)
  {
    var k: nat := |fo|;
    var one, two := [k + 1], [k + 2];
    assert (fo + [[]] + [[]])[k] == [] && [] + one == one && [] + two == two;
    var base := AddFanout(fo + [[]] + [[]], k, k + 1)[k + 1 := fo[n]][n := []] + [[]];
    assert base[n] == [] && base[k + 2] == [];
    assert AddFanout(base, n, k + 2) == base[n := two];
    assert AddFanout(base[n := two], k + 2, k + 1) == base[n := two][k + 2 := one];
  }

  lemma SplicedInv(ns: seq<Node>, fs: seq<nat>, n: nat, kg: nat, f: Func)
    requires n < |ns| && kg == |ns| + 1
    ensures var t := Spliced(ns, fs, n, false, kg, [KeyIn, Gate(f, [|ns|], false)]);
      t[kg] == Gate(f, [|ns|], false) &&
      (t + [Gate(Not, [n], false)])[kg := Gate(f, [|ns|, |ns| + 2], false)] ==
        Spliced(ns, fs, n, false, kg, [KeyIn, Gate(f, [|ns|, |ns| + 2], false), Gate(Not, [n], false)])
  {
  }

  lemma InvReading(f: Func, k: nat, n: nat, a: nat)
    requires n < k
    ensures Reading([KeyIn, Gate(f, [k, k + 2], false), Gate(Not, [n], false)], k, a) ==
      if a == n then [k + 2] else if a == k || a == k + 2 then [k + 1] else []
  {
    var g := Gate(f, [k, k + 2], false);
    var cells := [KeyIn, g, Gate(Not, [n], false)];
    assert cells[..2] == [KeyIn, g];
    LoneReading(g, k, a);
  }

  lemma InvKeyed(s: State, n: nat, xnor: bool)
    requires n < |s.nodes| == |s.fanouts|
    ensures KeyedFanouts(s, n, XorInvCells(s, n, xnor)) == InvFanouts(s.fanouts, n)
  {
    var k: nat := |s.nodes|;
    forall a | 0 <= a < k + 3
      ensures KeyedFanouts(s, n, XorInvCells(s, n, xnor))[a] == InvFanouts(s.fanouts, n)[a]
    {
      InvReading(if xnor then Xnor else Xor, k, n, a);
    }
  }

  lemma InvParts(s: State, n: nat, xnor: bool)
    requires n < |s.nodes| == |s.fanouts| == |s.isOut| && (s.isOut[n] ==> n in s.outputs)
    ensures Keyed(s, n, false, XorInvCells(s, n, xnor)) == (var k := |s.nodes|; State(
      Spliced(s.nodes, s.fanouts[n], n, false, k + 1, XorInvCells(s, n, xnor)),
      KeyedFanouts(s, n, XorInvCells(s, n, xnor)),
      s.isOut + [false] + [s.isOut[n]] + [false], s.list + [k] + [k + 1] + [k + 2], s.inputs + [k], s.keyInputs + [k],
      s.gates + [k + 1] + [k + 2],
      if s.isOut[n] then ReplaceOutput(s.outputs, n, k + 1) else s.outputs))
  {
    var k: nat := |s.nodes|;
    assert Numbers(k, 3) == [k, k + 1, k + 2] && Numbers(k + 1, 2) == [k + 1, k + 2];
    assert s.isOut + [false, s.isOut[n]] + seq(1, _ => false) == s.isOut + [false] + [s.isOut[n]] + [false];
  }

  lemma EarlyFanouts(fo: seq<seq<nat>>, n: nat)
    requires n < |fo|
    ensures var e := AddFanout(fo + [[]] + [[]], |fo|, |fo| + 1);
      |e| == |fo| + 2 && e[n] == fo[n] && e[|fo| + 1] == []
  {
  }

  lemma LoneStepsEarly(fo: seq<seq<nat>>, n: nat)
    requires n < |fo|
    ensures var k: nat := |fo|;
      AddFanout(AddFanout(fo + [[]] + [[]], k, k + 1)[k + 1 := fo[n]][n := []], n, k + 1) == LoneFanouts(fo, n)
  {
    var k: nat := |fo|;
    var one := [k + 1];
    assert (fo + [[]] + [[]])[k] == [] && [] + one == one;
    var base := AddFanout(fo + [[]] + [[]], k, k + 1)[k + 1 := fo[n]][n := []];
    assert base[n] == [];
    assert AddFanout(base, n, k + 1) == base[n := one];
  }

  /** The parts of a circuit with a lone key gate. */
  lemma KeyedParts(s: State, n: nat, inv: bool, g: Node)
    requires n < |s.nodes| == |s.fanouts| == |s.isOut| && (s.isOut[n] ==> n in s.outputs)
    ensures Keyed(s, n, inv, [KeyIn, g]) == (var k := |s.nodes|; State(
      Spliced(s.nodes, s.fanouts[n], n, inv, k + 1, [KeyIn, g]), KeyedFanouts(s, n, [KeyIn, g]),
      s.isOut + [false] + [s.isOut[n]], s.list + [k] + [k + 1], s.inputs + [k], s.keyInputs + [k], s.gates + [k + 1],
      if s.isOut[n] then ReplaceOutput(s.outputs, n, k + 1) else s.outputs))
  {
    var k: nat := |s.nodes|;
    assert Numbers(k, 2) == [k, k + 1] && Numbers(k + 1, 1) == [k + 1];
    assert s.isOut + [false, s.isOut[n]] + seq(0, _ => false) == s.isOut + [false] + [s.isOut[n]];
  }

  lemma Facts(s: State, n: nat)
    requires Lockable(s, n, false)
    ensures |s.fanouts| == |s.isOut| == |s.nodes| && n < |s.nodes| && (s.isOut[n] ==> n in s.outputs)
    ensures NoDup(s.fanouts[n]) && |s.nodes| + 1 !in s.fanouts[n]
  {
    assert MirrorAt(s.nodes, s.fanouts, n);
    assert !Feeds(s.nodes, n, |s.nodes| + 1);
  }

  lemma FanoutsStill(s: State, n: nat, cells: seq<Node>)
    requires Lockable(s, n, false)
    ensures forall f :: f in s.fanouts[n] ==> Feeds(s.nodes + cells, n, f)
    ensures BP.Rewired(s.nodes + cells, s.fanouts[n], n, |s.nodes| + 1) ==
      Spliced(s.nodes, s.fanouts[n], n, false, |s.nodes| + 1, cells)
  {
    assert MirrorAt(s.nodes, s.fanouts, n);
    forall f | f in s.fanouts[n] ensures Feeds(s.nodes + cells, n, f) && f < |s.nodes| {
      assert Feeds(s.nodes, n, f);
    }
    RewiredAppend(s.nodes, cells, s.fanouts[n], n, |s.nodes| + 1);
  }
}
