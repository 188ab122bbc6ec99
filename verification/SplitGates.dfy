/**
 `ckt_t::split_gates`: rewriting wide gates into trees of two-input gates, in
 place, while the list of gates being scanned grows.  Every node that was there
 before keeps its three-valued value, hence also its Boolean one.
 */
module SplitGates {
  import opened Cnf
  import opened Netlist
  import opened Ternary
  import opened TernaryClauses

  predicate Inverting(f: Func) {
    f == Nand || f == Nor || f == Xnor
  }

  /** The function whose inverse an inverting gate computes. */
  function BaseOf(f: Func): Func {
    match f
    case Nand => And
    case Nor => Or
    case Xnor => Xor
    case other => other
  }

  predicate IsBase(f: Func) {
    f == And || f == Or || f == Xor
  }

  /** What `_split_gate` accepts: it asserts on multiplexers. */
  predicate Splittable(n: Node) {
    n.Gate? ==>
      match n.func
      case And | Nand | Nor | Xor | Xnor => |n.fanins| >= 2
      case Or => |n.fanins| >= 1
      case Not | Buf => |n.fanins| == 1
      case Mux => false
  }

  /** At most two inputs, and a one-input gate is an inverter or a buffer. */
  predicate Small(n: Node) {
    n.Gate? ==>
      match n.func
      case Not | Buf => |n.fanins| == 1
      case Mux => false
      case _ => |n.fanins| == 2
  }

  // ----- refinement of netlists -----

  /** The nodes of `ns` have in `ns'` exactly the three-valued valuations they had. */
  ghost predicate Refines(ns: seq<Node>, ns': seq<Node>) {
    && NodesShaped(ns) && NodesShaped(ns') && |ns| <= |ns'|
    && (forall t :: IsTVal(ns', t) ==> IsTVal(ns, t[..|ns|]))
    && (forall t :: IsTVal(ns, t) ==> exists t' :: t <= t' && IsTVal(ns', t'))
  }

  lemma RefinesShaped(a: seq<Node>, b: seq<Node>)
    requires Refines(a, b)
    ensures NodesShaped(a) && NodesShaped(b) && |a| <= |b|
  {
  }

  lemma RefinesTrans(a: seq<Node>, b: seq<Node>, c: seq<Node>)
    requires Refines(a, b) && Refines(b, c)
    ensures Refines(a, c)
  {
    forall t | IsTVal(c, t)
      ensures IsTVal(a, t[..|a|])
    {
      assert IsTVal(b, t[..|b|]);
      assert t[..|b|][..|a|] == t[..|a|];
    }
    forall t | IsTVal(a, t)
      ensures exists t' :: t <= t' && IsTVal(c, t')
    {
      var u :| t <= u && IsTVal(b, u);
      var v :| u <= v && IsTVal(c, v);
      assert t <= v;
    }
  }

  lemma RefinesRefl(a: seq<Node>)
    requires NodesShaped(a)
    ensures Refines(a, a)
  {
    forall t | IsTVal(a, t) ensures IsTVal(a, t[..|a|]) { assert t[..|a|] == t; }
    forall t | IsTVal(a, t) ensures exists t' :: t <= t' && IsTVal(a, t') { assert t <= t; }
  }

  lemma TValsPrefix(t: seq<Tern>, t': seq<Tern>, ins: seq<nat>)
    requires t <= t' && forall j :: j in ins ==> j < |t|
    ensures TVals(t', ins) == TVals(t, ins)
  {
    forall k | 0 <= k < |ins| ensures TVals(t', ins)[k] == TVals(t, ins)[k] {
      assert ins[k] in ins;
    }
  }

  /** Appending a gate over existing nodes. */
  lemma AppendRefines(ns: seq<Node>, g: Node)
    requires NodesShaped(ns) && g.Gate? && ArityOk(g.func, |g.fanins|) && forall j :: j in g.fanins ==> j < |ns|
    ensures Refines(ns, ns + [g])
  {
    var ns' := ns + [g];
    forall t | IsTVal(ns', t)
      ensures IsTVal(ns, t[..|ns|])
    {
      forall i | 0 <= i < |ns|
        ensures TGateHolds(ns, t[..|ns|], i)
      {
        assert TGateHolds(ns', t, i);
        if ns[i].Gate? {
          TValsPrefix(t[..|ns|], t, ns[i].fanins);
        }
      }
    }
    forall t | IsTVal(ns, t)
      ensures exists t' :: t <= t' && IsTVal(ns', t')
    {
      var t' := t + [TApply(g.func, TVals(t, g.fanins))];
      forall i | 0 <= i < |ns'|
        ensures TGateHolds(ns', t', i)
      {
        if ns'[i].Gate? {
          TValsPrefix(t, t', ns'[i].fanins);
          if i < |ns| {
            assert TGateHolds(ns, t, i);
          }
        }
      }
      assert t <= t' && IsTVal(ns', t');
    }
  }

  /** The value a gate description forces on a node, given the other values. */
  ghost function ForcedBy(g: Node, t: seq<Tern>): Tern
    requires g.Gate? && ArityOk(g.func, |g.fanins|)
  {
    TApply(g.func, TVals(t, g.fanins))
  }

  ghost predicate HoldsExcept(ns: seq<Node>, t: seq<Tern>, i: nat)
    requires NodesShaped(ns)
  {
    |t| == |ns| && forall k :: 0 <= k < |ns| && k != i ==> TGateHolds(ns, t, k)
  }

  lemma RewireOthers(ns: seq<Node>, i: nat, g: Node, t: seq<Tern>)
    requires NodesShaped(ns) && GateShape(g, |ns|) && i < |ns|
    ensures NodesShaped(ns[i := g])
    ensures HoldsExcept(ns[i := g], t, i) <==> HoldsExcept(ns, t, i)
  {
    var ns' := ns[i := g];
    if |t| == |ns| {
      forall k | 0 <= k < |ns| && k != i
        ensures TGateHolds(ns', t, k) <==> TGateHolds(ns, t, k)
      {
      }
    }
  }

  lemma IsTValAt(ns: seq<Node>, t: seq<Tern>, i: nat)
    requires NodesShaped(ns) && i < |ns| && ns[i].Gate?
    ensures IsTVal(ns, t) <==> HoldsExcept(ns, t, i) && t[i] == ForcedBy(ns[i], t)
  {
    if HoldsExcept(ns, t, i) && t[i] == ForcedBy(ns[i], t) {
      assert TGateHolds(ns, t, i);
    }
    if IsTVal(ns, t) {
      assert TGateHolds(ns, t, i);
    }
  }

  /** Rewiring gate `i` without changing the value that it is given when the other gates hold. */
  lemma RewireRefines(ns: seq<Node>, i: nat, g: Node)
    requires NodesShaped(ns) && i < |ns| && ns[i].Gate? && g.Gate? && GateShape(g, |ns|)
    requires forall t :: HoldsExcept(ns, t, i) ==> ForcedBy(g, t) == ForcedBy(ns[i], t)
    ensures Refines(ns, ns[i := g])
  {
    var ns' := ns[i := g];
    RewireOthers(ns, i, g, []);
    forall t
      ensures IsTVal(ns', t) <==> IsTVal(ns, t)
    {
      RewireOthers(ns, i, g, t);
      IsTValAt(ns, t, i);
      IsTValAt(ns', t, i);
    }
    SameValuationsRefine(ns, ns');
  }

  lemma SameValuationsRefine(ns: seq<Node>, ns': seq<Node>)
    requires NodesShaped(ns) && NodesShaped(ns') && |ns| == |ns'|
    requires forall t :: IsTVal(ns', t) <==> IsTVal(ns, t)
    ensures Refines(ns, ns')
  {
    forall t | IsTVal(ns', t) ensures IsTVal(ns, t[..|ns|]) { assert t[..|ns|] == t; }
    forall t | IsTVal(ns, t) ensures exists t' :: t <= t' && IsTVal(ns', t') { assert t <= t; }
  }

  // ----- the algebra of the split -----

  lemma ParityAppend(a: seq<bool>, b: seq<bool>)
    ensures Parity(a + b) == (Parity(a) != Parity(b))
  {
    if b == [] {
      assert a + b == a;
    } else {
      ParityAppend(a, b[..|b| - 1]);
      assert (a + b)[..|a + b| - 1] == a + b[..|b| - 1];
    }
  }

  lemma AnyXAppend(a: seq<Tern>, b: seq<Tern>)
    ensures AnyX(a + b) <==> AnyX(a) || AnyX(b)
  {
    var c := a + b;
    if k :| 0 <= k < |a| && a[k].x { assert c[k].x; }
    if k :| 0 <= k < |b| && b[k].x { var n := |a| + k; assert c[n].x; }
  }

  lemma AnyKnownAppend(a: seq<Tern>, b: seq<Tern>, v: bool)
    ensures AnyKnown(a + b, v) <==> AnyKnown(a, v) || AnyKnown(b, v)
  {
    var c := a + b;
    if k :| 0 <= k < |a| && a[k] == Tern(false, v) { assert c[k] == Tern(false, v); }
    if k :| 0 <= k < |b| && b[k] == Tern(false, v) { var n := |a| + k; assert c[n] == Tern(false, v); }
  }

  lemma BitsAppend(x: seq<bool>, y: seq<bool>)
    ensures AllTrue(x + y) <==> AllTrue(x) && AllTrue(y)
    ensures AnyTrue(x + y) <==> AnyTrue(x) || AnyTrue(y)
  {
    var z := x + y;
    if k :| 0 <= k < |x| && !x[k] { assert !z[k]; }
    if k :| 0 <= k < |y| && !y[k] { var n := |x| + k; assert !z[n]; }
    if k :| 0 <= k < |x| && x[k] { assert z[k]; }
    if k :| 0 <= k < |y| && y[k] { var n := |x| + k; assert z[n]; }
  }

  lemma OneTerm(f: Func, p: Tern)
    requires IsBase(f)
    ensures TApply(f, [p]) == p
  {
    var ts := [p];
    assert ts[0] == p && Shadows(ts)[0] == p.v && Shadows(ts)[..0] == [];
    assert Parity(Shadows(ts)) == p.v;
  }

  /** A wide and, or, xor is the gate applied to the gates of its two halves. */
  lemma SplitValue(f: Func, a: seq<Tern>, b: seq<Tern>)
    requires IsBase(f) && |a| >= 1 && |b| >= 1
    ensures TApply(f, a + b) == TApply(f, [TApply(f, a), TApply(f, b)])
  {
    AnyXAppend(a, b);
    AnyKnownAppend(a, b, false);
    AnyKnownAppend(a, b, true);
    assert Shadows(a + b) == Shadows(a) + Shadows(b);
    BitsAppend(Shadows(a), Shadows(b));
    ParityAppend(Shadows(a), Shadows(b));
    var p, q := TApply(f, a), TApply(f, b);
    PairOf(p, q);
    KnownShape(a);
    KnownShape(b);
  }

  /** An inverting gate is an inverter after its base gate. */
  lemma InvertValue(f: Func, ts: seq<Tern>)
    requires Inverting(f) && |ts| >= 1
    ensures TApply(f, ts) == TApply(Not, [TApply(BaseOf(f), ts)])
  {
  }

  // ----- gate counts -----

  /** Gates that splitting a gate adds: n - 2 for a base gate, one more for an inverting one. */
  function Extra(n: Node): nat {
    if !n.Gate? || |n.fanins| <= 2 then 0
    else if Inverting(n.func) then |n.fanins| - 1
    else |n.fanins| - 2
  }

  function SumExtra(ns: seq<Node>, gs: seq<nat>): nat {
    if gs == [] then 0 else
      (if gs[0] < |ns| then Extra(ns[gs[0]]) else 0) + SumExtra(ns, gs[1..])
  }

  lemma {:induction false} SumExtraAppend(ns: seq<Node>, a: seq<nat>, b: seq<nat>)
    ensures SumExtra(ns, a + b) == SumExtra(ns, a) + SumExtra(ns, b)
  {
    if a == [] {
      assert a + b == b;
    } else {
      assert (a + b)[1..] == a[1..] + b;
      SumExtraAppend(ns, a[1..], b);
    }
  }

  lemma {:induction false} SumExtraFrame(ns: seq<Node>, ns': seq<Node>, gs: seq<nat>)
    requires forall g :: g in gs ==> g < |ns| && g < |ns'| && ns'[g] == ns[g]
    ensures SumExtra(ns', gs) == SumExtra(ns, gs)
  {
    if gs != [] {
      assert gs[0] in gs;
      assert forall g :: g in gs[1..] ==> g in gs;
      SumExtraFrame(ns, ns', gs[1..]);
    }
  }

  function Range(a: nat, b: nat): (r: seq<nat>)
    requires a <= b
    ensures |r| == b - a && forall k :: 0 <= k < |r| ==> r[k] == a + k
  {
    seq(b - a, k requires 0 <= k < b - a => a + k)
  }

  // ----- acyclicity -----

  /** Gate `g` is fed from its old fanins partly through the new nodes, which see only those fanins. */
  ghost predicate Interposes(ns: seq<Node>, ns': seq<Node>, g: nat)
    requires g < |ns| <= |ns'|
  {
    && ns[g].Gate? && ns'[g].Gate?
    && (forall k :: 0 <= k < |ns| && k != g ==> ns'[k] == ns[k])
    && (forall k, j :: |ns| <= k < |ns'| && ns'[k].Gate? && j in ns'[k].fanins ==> j in ns[g].fanins)
    && (forall j :: j in ns'[g].fanins ==> j in ns[g].fanins || j >= |ns|)
  }

  lemma InterposeAcyclic(ns: seq<Node>, ns': seq<Node>, g: nat)
    requires NodesShaped(ns) && g < |ns| <= |ns'| && Interposes(ns, ns', g) && AcyclicNodes(ns)
    ensures AcyclicNodes(ns')
  {
    var rank :| RanksNodes(ns, rank);
    var rank' := seq(|ns'|, k requires 0 <= k < |ns'| => if k < |ns| then 2 * rank[k] + 1 else 2 * rank[g]);
    forall i, j | 0 <= i < |ns'| && ns'[i].Gate? && j in ns'[i].fanins && j < |ns'|
      ensures rank'[j] < rank'[i]
    {
      if i >= |ns| {
        assert j in ns[g].fanins;
      } else if i != g {
        assert GateShape(ns[i], |ns|);
      }
    }
    assert RanksNodes(ns', rank');
  }

  // ----- the transformation -----

  /** Node `h` has the value of `f` on the nodes `half`. */
  ghost predicate Stands(ns: seq<Node>, h: nat, f: Func, half: seq<nat>) {
    if |half| == 1 then h == half[0] else h < |ns| && ns[h] == Gate(f, half, false)
  }

  lemma StandsValue(ns: seq<Node>, t: seq<Tern>, b: nat, h: nat, f: Func, half: seq<nat>)
    requires NodesShaped(ns) && HoldsExcept(ns, t, b) && IsBase(f) && |half| >= 1
    requires h != b && h < |ns| && Stands(ns, h, f, half)
    ensures t[h] == TApply(f, TVals(t, half))
  {
    if |half| == 1 {
      OneTerm(f, t[h]);
      assert TVals(t, half) == [t[h]];
    } else {
      assert TGateHolds(ns, t, h);
    }
  }

  lemma HalvesRefine(ns: seq<Node>, b: nat, h: nat, g1: nat, g2: nat)
    requires NodesShaped(ns) && b < |ns| && ns[b].Gate? && IsBase(ns[b].func)
    requires 1 <= h < |ns[b].fanins| && g1 != b && g2 != b && g1 < |ns| && g2 < |ns|
    requires Stands(ns, g1, ns[b].func, ns[b].fanins[..h]) && Stands(ns, g2, ns[b].func, ns[b].fanins[h..])
    ensures Refines(ns, ns[b := ns[b].(fanins := [g1, g2])])
  {
    var f, ins := ns[b].func, ns[b].fanins;
    var g := ns[b].(fanins := [g1, g2]);
    forall t | HoldsExcept(ns, t, b)
      ensures ForcedBy(g, t) == ForcedBy(ns[b], t)
    {
      StandsValue(ns, t, b, g1, f, ins[..h]);
      StandsValue(ns, t, b, g2, f, ins[h..]);
      SplitValue(f, TVals(t, ins[..h]), TVals(t, ins[h..]));
      assert TVals(t, ins) == TVals(t, ins[..h]) + TVals(t, ins[h..]);
      assert TVals(t, [g1, g2]) == [t[g1], t[g2]];
    }
    RewireRefines(ns, b, g);
  }

  lemma InverterRefines(ns: seq<Node>, g: nat, inp: nat)
    requires NodesShaped(ns) && g < |ns| && ns[g].Gate? && Inverting(ns[g].func)
    requires inp != g && inp < |ns| && ns[inp] == Gate(BaseOf(ns[g].func), ns[g].fanins, false)
    ensures Refines(ns, ns[g := ns[g].(func := Not, fanins := [inp])])
  {
    var n := ns[g].(func := Not, fanins := [inp]);
    forall t | HoldsExcept(ns, t, g)
      ensures ForcedBy(n, t) == ForcedBy(ns[g], t)
    {
      assert TGateHolds(ns, t, inp);
      InvertValue(ns[g].func, TVals(t, ns[g].fanins));
      assert TVals(t, [inp]) == [t[inp]];
    }
    RewireRefines(ns, g, n);
  }

  ghost predicate AllSplittable(ns: seq<Node>) {
    forall k :: 0 <= k < |ns| ==> Splittable(ns[k])
  }

  lemma SplittableShaped(ns: seq<Node>, g: nat, f: Func, ins: seq<nat>)
    requires NodesShaped(ns) && g < |ns| && ns[g].Gate? && ins == ns[g].fanins && |ins| >= 2 && IsBase(f)
    ensures GateShape(Gate(f, ins, false), |ns|)
  {
  }

  class SplitCkt {
    var nodes: seq<Node>
    var gates: seq<nat>

    constructor (ns: seq<Node>, gs: seq<nat>)
      ensures nodes == ns && gates == gs
    {
      nodes, gates := ns, gs;
    }

    method CreateGate(ins: seq<nat>, f: Func) returns (g: nat)
      requires NodesShaped(nodes) && GateShape(Gate(f, ins, false), |nodes|)
      modifies this
      ensures g == |old(nodes)| && nodes == old(nodes) + [Gate(f, ins, false)] && gates == old(gates) + [g]
      ensures Refines(old(nodes), nodes)
    {
      AppendRefines(nodes, Gate(f, ins, false));
      g := |nodes|;
      nodes := nodes + [Gate(f, ins, false)];
      gates := gates + [g];
    }

    /** The node for one half of the inputs: the input itself if there is only one. */
    method Half(half: seq<nat>, f: Func) returns (h: nat)
      requires NodesShaped(nodes) && IsBase(f) && |half| >= 1 && forall j :: j in half ==> j < |nodes|
      modifies this
      ensures Stands(nodes, h, f, half) && h < |nodes| && (h in half || h >= |old(nodes)|)
      ensures nodes == old(nodes) + (if |half| == 1 then [] else [Gate(f, half, false)])
      ensures gates == old(gates) + Range(|old(nodes)|, |nodes|)
      ensures Refines(old(nodes), nodes)
    {
      if |half| == 1 {
        h := half[0];
        assert h in half;
        RefinesRefl(nodes);
      } else {
        h := CreateGate(half, f);
      }
    }

    /** The tail of `_split_gate`: base gate `b` becomes a two-input gate over its halves. */
    method SplitBase(b: nat)
      requires NodesShaped(nodes) && b < |nodes| && nodes[b].Gate? && IsBase(nodes[b].func)
      requires |nodes[b].fanins| > 2 && b !in nodes[b].fanins
      modifies this
      ensures Refines(old(nodes), nodes) && gates == old(gates) + Range(|old(nodes)|, |nodes|)
      ensures b < |old(nodes)| <= |nodes| && Interposes(old(nodes), nodes, b)
      ensures nodes[b].func == old(nodes[b].func) && |nodes[b].fanins| == 2
      ensures var ins := old(nodes[b].fanins);
        && Stands(nodes, nodes[b].fanins[0], nodes[b].func, ins[..|ins| / 2])
        && Stands(nodes, nodes[b].fanins[1], nodes[b].func, ins[|ins| / 2..])
      ensures forall k :: |old(nodes)| <= k < |nodes| ==> nodes[k].Gate? && Splittable(nodes[k])
      ensures |nodes| + SumExtra(nodes, Range(|old(nodes)|, |nodes|)) == |old(nodes)| + |old(nodes[b].fanins)| - 2
    {
      hide Refines, NodesShaped, SumExtra, Interposes, Splittable;
      ghost var ns0, gs0 := nodes, gates;
      var f, ins := nodes[b].func, nodes[b].fanins;
      var h := |ins| / 2;
      HalvesInRange(nodes, b, h);
      var g1 := Half(ins[..h], f);
      ghost var ns1 := nodes;
      RefinesShaped(ns0, ns1);
      var g2 := Half(ins[h..], f);
      ghost var ns2 := nodes;
      RefinesShaped(ns1, ns2);
      assert Stands(ns2, g1, f, ins[..h]);
      RefinesTrans(ns0, ns1, ns2);
      HalvesRefine(ns2, b, h, g1, g2);
      nodes := nodes[b := nodes[b].(fanins := [g1, g2])];
      RefinesTrans(ns0, ns2, nodes);
      HalvesCount(ns0, ns1, ns2, nodes, b, h);
      HalvesShape(ns0, nodes, b, h, g1, g2);
      assert gates == gs0 + Range(|ns0|, |nodes|);
    }

    /** `_split_gate` for the inverting kinds: a base gate for the fanins, which is split, and an inverter behind it. */
    method SplitInverting(g: nat)
      requires NodesShaped(nodes) && AllSplittable(nodes) && AcyclicNodes(nodes)
      requires g < |nodes| && nodes[g].Gate? && |nodes[g].fanins| > 2 && Inverting(nodes[g].func)
      modifies this
      ensures Refines(old(nodes), nodes) && gates == old(gates) + Range(|old(nodes)|, |nodes|)
      ensures AllSplittable(nodes) && AcyclicNodes(nodes)
      ensures |old(nodes)| <= |nodes| && nodes[g] == old(nodes)[g].(func := Not, fanins := [|old(nodes)|])
      ensures forall k :: 0 <= k < |old(nodes)| && k != g ==> nodes[k] == old(nodes)[k]
      ensures forall k :: |old(nodes)| <= k < |nodes| ==> nodes[k].Gate?
      ensures |nodes| + SumExtra(nodes, Range(|old(nodes)|, |nodes|)) == |old(nodes)| + Extra(old(nodes[g]))
    {
      hide Refines, NodesShaped, SumExtra, AcyclicNodes;
      ghost var ns0, gs0 := nodes, gates;
      SplittableShaped(nodes, g, BaseOf(nodes[g].func), nodes[g].fanins);
      var inp := CreateGate(nodes[g].fanins, BaseOf(nodes[g].func));
      ghost var ns1 := nodes;
      InverterRefines(ns1, g, inp);
      nodes := nodes[g := nodes[g].(func := Not, fanins := [inp])];
      ghost var ns2 := nodes;
      RefinesTrans(ns0, ns1, ns2);
      InterposeAcyclic(ns0, ns2, g);
      NoSelfLoop(ns2, inp);
      SplitBase(inp);
      RefinesTrans(ns0, ns2, nodes);
      InterposeAcyclic(ns2, nodes, inp);
      SumExtraCons(nodes, inp);
      assert gates == gs0 + Range(|ns0|, |nodes|);
    }

    /** `_split_gate`. */
    method SplitGate(g: nat)
      requires NodesShaped(nodes) && AllSplittable(nodes) && AcyclicNodes(nodes)
      requires g < |nodes| && nodes[g].Gate?
      modifies this
      ensures Refines(old(nodes), nodes) && gates == old(gates) + Range(|old(nodes)|, |nodes|)
      ensures AllSplittable(nodes) && AcyclicNodes(nodes)
      ensures |old(nodes)| <= |nodes| && nodes[g].Gate? && Small(nodes[g])
      ensures forall k :: 0 <= k < |old(nodes)| && k != g ==> nodes[k] == old(nodes)[k]
      ensures forall k :: |old(nodes)| <= k < |nodes| ==> nodes[k].Gate?
      ensures nodes[g].func ==
        (if |old(nodes[g].fanins)| > 2 && Inverting(old(nodes[g].func)) then Not
         else if |old(nodes[g].fanins)| == 1 && old(nodes[g].func) == Or then Buf
         else old(nodes[g].func))
      ensures |nodes| + SumExtra(nodes, Range(|old(nodes)|, |nodes|)) == |old(nodes)| + Extra(old(nodes[g]))
    {
      hide Refines, NodesShaped, SumExtra, AcyclicNodes;
      if |nodes[g].fanins| > 2 {
        if Inverting(nodes[g].func) {
          SplitInverting(g);
        } else {
          ghost var ns0 := nodes;
          NoSelfLoop(nodes, g);
          SplitBase(g);
          InterposeAcyclic(ns0, nodes, g);
        }
      } else {
        KeepSmall(g);
      }
    }

    /** A gate with at most two fanins stays, but an or of one fanin becomes a buffer. */
    method KeepSmall(g: nat)
      requires NodesShaped(nodes) && AllSplittable(nodes) && AcyclicNodes(nodes)
      requires g < |nodes| && nodes[g].Gate? && |nodes[g].fanins| <= 2
      modifies this`nodes
      ensures Refines(old(nodes), nodes) && AllSplittable(nodes) && AcyclicNodes(nodes) && |nodes| == |old(nodes)|
      ensures nodes[g].Gate? && Small(nodes[g]) && nodes[g].func ==
        if |old(nodes[g].fanins)| == 1 && old(nodes[g].func) == Or then Buf else old(nodes[g].func)
      ensures forall k :: 0 <= k < |old(nodes)| && k != g ==> nodes[k] == old(nodes)[k]
      ensures Range(|nodes|, |nodes|) == [] && SumExtra(nodes, []) == 0 && Extra(old(nodes[g])) == 0
    {
      hide Refines, NodesShaped, AcyclicNodes;
      ghost var ns0 := nodes;
      if |nodes[g].fanins| == 1 && nodes[g].func == Or {
        BufferRefines(nodes, g);
        nodes := nodes[g := nodes[g].(func := Buf)];
        InterposeAcyclic(ns0, nodes, g);
      } else {
        RefinesRefl(nodes);
      }
      SumExtraNone(nodes);
    }

    /** `split_gates`: scans the gate list while it grows at the end. */
    method SplitGates()
      requires NodesShaped(nodes) && AllSplittable(nodes) && AcyclicNodes(nodes)
      requires ListsGates(nodes, gates) && NoDup(gates)
      modifies this
      ensures Refines(old(nodes), nodes) && AcyclicNodes(nodes)
      ensures forall k :: 0 <= k < |nodes| ==> Small(nodes[k])
      ensures ListsGates(nodes, gates) && NoDup(gates) && old(gates) <= gates
      ensures forall k :: 0 <= k < |old(nodes)| && !old(nodes)[k].Gate? ==> nodes[k] == old(nodes)[k]
      ensures |nodes| == |old(nodes)| + SumExtra(old(nodes), old(gates))
    {
      hide Refines, NodesShaped, AcyclicNodes, SumExtra, NoDup;
      ghost var ns0, gs0 := nodes, gates;
      ghost var total := |nodes| + SumExtra(nodes, gates);
      RefinesRefl(nodes);
      assert gates[0..] == gates;
      var i := 0;
      while i != |gates|
        invariant 0 <= i <= |gates|
        invariant Refines(ns0, nodes) && AllSplittable(nodes) && AcyclicNodes(nodes)
        invariant ListsGates(nodes, gates) && NoDup(gates) && gs0 <= gates
        invariant SmallTo(nodes, gates, i)
        invariant forall k :: 0 <= k < |ns0| && !ns0[k].Gate? ==> nodes[k] == ns0[k]
        invariant |nodes| + SumExtra(nodes, gates[i..]) == total
        decreases total - |nodes|, |gates| - i
      {
        ghost var ns1, gs1 := nodes, gates;
        RefinesShaped(ns0, nodes);
        assert gates[i] in gates;
        SplitGate(gates[i]);
        RefinesTrans(ns0, ns1, nodes);
        ScanStep(ns1, gs1, nodes, gates, i);
        i := i + 1;
      }
      assert gates[i..] == [];
      SumExtraEmpty(nodes);
      forall k | 0 <= k < |nodes| ensures Small(nodes[k]) {
        if nodes[k].Gate? {
          assert k in gates;
          var j :| 0 <= j < |gates| && gates[j] == k;
        }
      }
    }
  }

  ghost predicate SmallTo(ns: seq<Node>, gates: seq<nat>, n: nat)
    requires n <= |gates|
  {
    forall j :: 0 <= j < n ==> gates[j] < |ns| && Small(ns[gates[j]])
  }

  lemma RankStep(ns: seq<Node>, rank: seq<nat>, i: nat, j: nat)
    requires RanksNodes(ns, rank) && i < |ns| && ns[i].Gate? && j in ns[i].fanins && j < |ns|
    ensures rank[j] < rank[i]
  {
  }

  lemma NoSelfLoop(ns: seq<Node>, g: nat)
    requires AcyclicNodes(ns) && g < |ns| && ns[g].Gate?
    ensures g !in ns[g].fanins
  {
    var rank :| RanksNodes(ns, rank);
    if g in ns[g].fanins {
      RankStep(ns, rank, g, g);
    }
  }

  lemma HalvesInRange(ns: seq<Node>, b: nat, h: nat)
    requires NodesShaped(ns) && b < |ns| && ns[b].Gate? && h <= |ns[b].fanins|
    ensures forall j :: j in ns[b].fanins[..h] || j in ns[b].fanins[h..] ==> j < |ns| && j in ns[b].fanins
  {
    var ins := ns[b].fanins;
    forall j | j in ins[..h] || j in ins[h..] ensures j in ins {
      assert ins == ins[..h] + ins[h..];
    }
  }

  lemma BufferRefines(ns: seq<Node>, g: nat)
    requires NodesShaped(ns) && g < |ns| && ns[g].Gate? && ns[g].func == Or && |ns[g].fanins| == 1
    ensures Refines(ns, ns[g := ns[g].(func := Buf)])
  {
    var n := ns[g].(func := Buf);
    forall t | HoldsExcept(ns, t, g)
      ensures ForcedBy(n, t) == ForcedBy(ns[g], t)
    {
      var ts := TVals(t, ns[g].fanins);
      assert ts == [ts[0]];
      OneTerm(Or, ts[0]);
    }
    RewireRefines(ns, g, n);
  }

  lemma SumExtraEmpty(ns: seq<Node>)
    ensures SumExtra(ns, []) == 0
  {
  }

  lemma SumExtraNone(ns: seq<Node>)
    ensures Range(|ns|, |ns|) == [] && SumExtra(ns, Range(|ns|, |ns|)) == 0
  {
  }

  lemma SumExtraCons(ns: seq<Node>, a: nat)
    requires a < |ns|
    ensures SumExtra(ns, Range(a, |ns|)) == Extra(ns[a]) + SumExtra(ns, Range(a + 1, |ns|))
  {
    var list := Range(a, |ns|);
    assert list[0] == a && list[1..] == Range(a + 1, |ns|);
    SumExtraHead(ns, list);
    hide SumExtra, Extra;
  }

  lemma SumExtraHead(ns: seq<Node>, list: seq<nat>)
    requires list != [] && forall k :: 0 <= k < |list| ==> list[k] < |ns|
    ensures SumExtra(ns, list) == Extra(ns[list[0]]) + SumExtra(ns, list[1..])
  {
  }

  /** The new gates read only what the wide gate read, and it reads only them. */
  lemma HalvesShape(ns0: seq<Node>, ns: seq<Node>, b: nat, h: nat, g1: nat, g2: nat)
    requires b < |ns0| <= |ns| && ns0[b].Gate? && IsBase(ns0[b].func) && 0 < h < |ns0[b].fanins|
    requires ns == (ns0 + HalfGate(ns0[b], ns0[b].fanins[..h]) + HalfGate(ns0[b], ns0[b].fanins[h..]))
      [b := ns0[b].(fanins := [g1, g2])]
    requires g1 in ns0[b].fanins[..h] || g1 >= |ns0|
    requires g2 in ns0[b].fanins[h..] || g2 >= |ns0|
    ensures Interposes(ns0, ns, b)
    ensures forall k :: |ns0| <= k < |ns| ==> ns[k].Gate? && Splittable(ns[k])
  {
  }

  /** The gate made for a half, if it is no single node. */
  function HalfGate(n: Node, half: seq<nat>): seq<Node>
    requires n.Gate?
  {
    if |half| == 1 then [] else [Gate(n.func, half, false)]
  }

  /** Both halves together still need as many gates as the wide gate, less the ones now made. */
  lemma HalvesCount(ns0: seq<Node>, ns1: seq<Node>, ns2: seq<Node>, ns3: seq<Node>, b: nat, h: nat)
    requires b < |ns0| && ns0[b].Gate? && IsBase(ns0[b].func)
    requires |ns0[b].fanins| > 2 && h == |ns0[b].fanins| / 2
    requires ns1 == ns0 + (if h == 1 then [] else [Gate(ns0[b].func, ns0[b].fanins[..h], false)])
    requires ns2 == ns1 + [Gate(ns0[b].func, ns0[b].fanins[h..], false)]
    requires |ns3| == |ns2| && forall k :: |ns0| <= k < |ns2| ==> ns3[k] == ns2[k]
    ensures |ns3| + SumExtra(ns3, Range(|ns0|, |ns3|)) == |ns0| + |ns0[b].fanins| - 2
  {
    var n := |ns0|;
    SumExtraCons(ns3, n);
    if h == 1 {
      assert Range(n + 1, |ns3|) == [];
    } else {
      SumExtraCons(ns3, n + 1);
      assert Range(n + 2, |ns3|) == [];
    }
  }

  /** One step of the scan, seen from the lists. */
  lemma ScanStep(ns: seq<Node>, gs: seq<nat>, ns': seq<Node>, gs': seq<nat>, i: nat)
    requires ListsGates(ns, gs) && NoDup(gs) && i < |gs| && SmallTo(ns, gs, i)
    requires |ns| <= |ns'| && gs' == gs + Range(|ns|, |ns'|)
    requires gs[i] < |ns| && Small(ns'[gs[i]]) && ns'[gs[i]].Gate?
    requires forall k :: 0 <= k < |ns| && k != gs[i] ==> ns'[k] == ns[k]
    requires forall k :: |ns| <= k < |ns'| ==> ns'[k].Gate?
    requires |ns'| + SumExtra(ns', Range(|ns|, |ns'|)) == |ns| + Extra(ns[gs[i]])
    ensures ListsGates(ns', gs') && NoDup(gs') && SmallTo(ns', gs', i + 1)
    ensures |ns'| + SumExtra(ns', gs'[i + 1..]) == |ns| + SumExtra(ns, gs[i..])
  {
    assert forall j :: 0 <= j < |gs| ==> gs[j] in gs && gs[j] < |ns|;
    ListStep(ns, gs, ns', gs', gs[i]);
    CountStep(ns, gs, ns', gs', i);
    hide ListsGates, SumExtra, Extra;
    forall k | 0 <= k < i + 1
      ensures gs'[k] == gs[k]
    {
    }
  }

  lemma ListStep(ns: seq<Node>, gs: seq<nat>, ns': seq<Node>, gs': seq<nat>, g0: nat)
    requires ListsGates(ns, gs) && NoDup(gs) && |ns| <= |ns'| && gs' == gs + Range(|ns|, |ns'|)
    requires g0 < |ns| && ns[g0].Gate? && ns'[g0].Gate? && forall k :: 0 <= k < |ns| && k != g0 ==> ns'[k] == ns[k]
    requires forall k :: |ns| <= k < |ns'| ==> ns'[k].Gate?
    ensures ListsGates(ns', gs') && NoDup(gs')
  {
    forall j | 0 <= j < |gs| ensures gs[j] < |ns| {
      assert gs[j] in gs;
    }
    forall g: nat
      ensures g in gs' <==> g < |ns'| && ns'[g].Gate?
    {
      if |ns| <= g < |ns'| {
        assert Range(|ns|, |ns'|)[g - |ns|] == g;
      }
    }
  }

  lemma CountStep(ns: seq<Node>, gs: seq<nat>, ns': seq<Node>, gs': seq<nat>, i: nat)
    requires i < |gs| && NoDup(gs) && |ns| <= |ns'| && gs' == gs + Range(|ns|, |ns'|)
    requires (forall j :: 0 <= j < |gs| ==> gs[j] < |ns|) && forall k :: 0 <= k < |ns| && k != gs[i] ==> ns'[k] == ns[k]
    requires |ns'| + SumExtra(ns', Range(|ns|, |ns'|)) == |ns| + Extra(ns[gs[i]])
    ensures |ns'| + SumExtra(ns', gs'[i + 1..]) == |ns| + SumExtra(ns, gs[i..])
  {
    assert gs'[i + 1..] == gs[i + 1..] + Range(|ns|, |ns'|);
    SumExtraAppend(ns', gs[i + 1..], Range(|ns|, |ns'|));
    SumExtraFrame(ns, ns', gs[i + 1..]);
    assert gs[i..][1..] == gs[i + 1..];
  }
}
