/**
 `node_t::const_propagate` and `ckt_t::rewrite_keys`: fixing key bits in the
 netlist itself.  A node with a fixed value is cut from its fanouts, which either
 become constant in turn or shrink; every gate that does not become constant keeps
 the value it had in each valuation with the fixed bits.
 */
module ConstProp {
  import opened Cnf
  import opened Netlist
  import opened GateAlgebra

  predicate IsGate(ns: seq<Node>, g: nat) {
    g < |ns| && ns[g].Gate?
  }

  /** Node `a` feeds gate `g`. */
  predicate Feeds(ns: seq<Node>, a: nat, g: nat) {
    IsGate(ns, g) && a in ns[g].fanins
  }

  ghost predicate GateOk(ns: seq<Node>, w: Model, g: nat) {
    IsGate(ns, g) && PropArity(ns[g].func, |ns[g].fanins|) && ArityOk(ns[g].func, |ns[g].fanins|)
    && Bit(w, g) == Apply(ns[g].func, Vals(w, ns[g].fanins))
  }

  ghost predicate Ranked(ns: seq<Node>, rank: seq<nat>, top: nat) {
    && |rank| == |ns| && (forall g :: 0 <= g < |ns| ==> rank[g] <= top)
    && (forall a: nat, g: nat :: Feeds(ns, a, g) ==> a < |ns| && rank[a] < rank[g])
  }

  ghost predicate Orderable(ns: seq<Node>) {
    exists rank :: Ranked(ns, rank, MaxOf(rank))
  }

  /** Fanins are distinct; no gate that is still in use has an odd shape. */
  ghost predicate Shaped(ns: seq<Node>, cst: map<nat, bool>) {
    forall g: nat :: IsGate(ns, g) ==>
      && NoDup(ns[g].fanins)
      && (g !in cst ==> PropArity(ns[g].func, |ns[g].fanins|))
      && (g in cst ==> ns[g].func != Xor && ns[g].func != Xnor && ns[g].func != Mux)
  }

  /** Fanouts of nodes without a fixed value are exactly the gates they feed. */
  ghost predicate Mirrored(ns: seq<Node>, fo: seq<seq<nat>>, cst: map<nat, bool>) {
    && |fo| == |ns|
    && forall a: nat :: a < |ns| && a !in cst ==> MirrorAt(ns, fo, a)
  }

  ghost predicate MirrorAt(ns: seq<Node>, fo: seq<seq<nat>>, a: nat)
    requires a < |fo|
  {
    NoDup(fo[a]) && forall g: nat :: g in fo[a] <==> Feeds(ns, a, g)
  }

  /** A fixed node that is not being propagated feeds nothing any more. */
  ghost predicate CutOff(ns: seq<Node>, fo: seq<seq<nat>>, cst: map<nat, bool>, prog: set<nat>) {
    && |fo| == |ns|
    && (forall a :: a in cst ==> a < |ns|)
    && (forall a :: a in cst && a !in prog ==> fo[a] == [])
    && (forall a: nat, g: nat :: a in cst && a !in prog ==> !Feeds(ns, a, g))
  }

  /** In every reference valuation fixed nodes have their values and the other gates hold. */
  ghost predicate Faithful(ns: seq<Node>, vals: iset<Model>, cst: map<nat, bool>) {
    && (forall w, c :: w in vals && c in cst ==> Bit(w, c) == cst[c])
    && (forall w, g: nat :: w in vals && IsGate(ns, g) && g !in cst ==> GateOk(ns, w, g))
  }

  /** What a propagation from `input` into `n` removes: that one fanin, and the fanins that became fixed. */
  ghost predicate Trimmed(
    ns: seq<Node>, ns': seq<Node>, cst: map<nat, bool>, cst': map<nat, bool>, input: nat, n: nat)
  {
    && |ns'| == |ns|
    && (forall g: nat :: g < |ns| ==> ns'[g].Gate? == ns[g].Gate? && (!ns[g].Gate? ==> ns'[g] == ns[g]))
    && (forall c :: c in cst' && c !in cst ==> IsGate(ns, c))
    && (forall a: nat, g: nat :: Feeds(ns', a, g) <==>
          Feeds(ns, a, g) && !(a == input && g == n) && !(a in cst' && a !in cst))
  }

  ghost predicate Grows(cst: map<nat, bool>, cst': map<nat, bool>) {
    forall c :: c in cst ==> c in cst' && cst'[c] == cst[c]
  }

  /** Nodes of rank `r` and less are as before. */
  ghost predicate SameUpTo(ns: seq<Node>, ns': seq<Node>, rank: seq<nat>, r: nat) {
    |ns'| == |ns| && forall g: nat :: g < |ns| && g < |rank| && rank[g] <= r ==> ns'[g] == ns[g]
  }

  lemma SameUpToTrans(ns: seq<Node>, ns1: seq<Node>, ns': seq<Node>, rank: seq<nat>, r: nat, m: nat)
    requires SameUpTo(ns, ns1, rank, r) && m < |ns1| && m < |ns'| && m < |rank| && rank[m] > r
    requires SameUpTo(ns1[m := ns'[m]], ns', rank, rank[m])
    ensures SameUpTo(ns, ns', rank, r)
  {
  }

  lemma StartSame(ns: seq<Node>, rank: seq<nat>, r: nat)
    ensures SameUpTo(ns, ns, rank, r)
  {
  }

  /** Only node `n` and nodes of greater rank change when the fanouts of `n` are gone through. */
  lemma SameBehind(ns0: seq<Node>, ns1: seq<Node>, ns: seq<Node>, rank: seq<nat>, n: nat)
    requires n < |ns0| == |ns1| == |ns| && n < |rank| && ns1 == ns0[n := ns1[n]] && SameUpTo(ns1, ns, rank, rank[n])
    ensures ns[n] == ns1[n] && SameUpTo(ns0[n := ns[n]], ns, rank, rank[n])
  {
  }

  lemma SameWith(ns0: seq<Node>, ns: seq<Node>, ns': seq<Node>, rank: seq<nat>, n: nat)
    requires n < |ns0| == |ns| == |ns'| && n < |rank| && SameUpTo(ns0[n := ns[n]], ns, rank, rank[n])
    requires ns' == ns[n := ns'[n]]
    ensures SameUpTo(ns0[n := ns'[n]], ns', rank, rank[n])
  {
  }

  /** Gate `n` after `input` is taken from its fanins. */
  function Trim(g: Node, input: nat, value: bool): Node
    requires g.Gate?
  {
    var ins := Remove(g.fanins, input);
    g.(fanins := ins, func := if Controlled(g.func, value) then
        (if |ins| == 1 then Rest(g.func, value, 1) else g.func)
      else Rest(g.func, value, |ins|))
  }

  // ----- taking one fanin away -----

  lemma TrimShape(ns: seq<Node>, n: nat, input: nat, value: bool)
    requires Feeds(ns, input, n) && NoDup(ns[n].fanins)
    ensures var ns' := ns[n := Trim(ns[n], input, value)];
      forall a: nat, g: nat :: Feeds(ns', a, g) <==> Feeds(ns, a, g) && !(a == input && g == n)
    ensures NoDup(Trim(ns[n], input, value).fanins)
  {
    RemoveShape(ns[n].fanins, input);
  }

  /** A gate that does not become constant still holds. */
  lemma TrimHolds(ns: seq<Node>, n: nat, input: nat, value: bool, w: Model)
    requires GateOk(ns, w, n) && Feeds(ns, input, n) && NoDup(ns[n].fanins)
    requires Bit(w, input) == value && !Controlled(ns[n].func, value)
    ensures GateOk(ns[n := Trim(ns[n], input, value)], w, n)
  {
    RestValue(ns[n].func, ns[n].fanins, input, value, w);
  }

  /** A gate that becomes constant had that value. */
  lemma TrimFixes(ns: seq<Node>, n: nat, input: nat, value: bool, w: Model)
    requires GateOk(ns, w, n) && Feeds(ns, input, n)
    requires Bit(w, input) == value && Controlled(ns[n].func, value)
    ensures Bit(w, n) == ControlledTo(ns[n].func, value)
  {
    ControlledValue(ns[n].func, ns[n].fanins, input, value, w);
  }

  // ----- one step at a time -----

  /** All that holds between calls, while the nodes in `prog` are being propagated. */
  ghost predicate Inv(
    ns: seq<Node>, fo: seq<seq<nat>>, vals: iset<Model>, cst: map<nat, bool>, rank: seq<nat>, top: nat, prog: set<nat>)
  {
    && Ranked(ns, rank, top) && Shaped(ns, cst) && Mirrored(ns, fo, cst) && CutOff(ns, fo, cst, prog)
    && Faithful(ns, vals, cst) && (forall p :: p in prog ==> p in cst)
  }

  /** Gate `n` loses a fixed fanin and lives on. */
  lemma ShrinkGate(
      ns: seq<Node>, fo: seq<seq<nat>>, vals: iset<Model>, cst: map<nat, bool>, rank: seq<nat>, top: nat,
      prog: set<nat>, n: nat, input: nat, value: bool)
    requires Inv(ns, fo, vals, cst, rank, top, prog) && input in prog && cst[input] == value
    requires Feeds(ns, input, n) && n !in cst && !Controlled(ns[n].func, value)
    ensures var ns' := ns[n := Trim(ns[n], input, value)];
      Inv(ns', fo, vals, cst, rank, top, prog) && Trimmed(ns, ns', cst, cst, input, n)
  {
    var ns' := ns[n := Trim(ns[n], input, value)];
    TrimShape(ns, n, input, value);
    forall w | w in vals ensures GateOk(ns', w, n) {
      assert GateOk(ns, w, n);
      TrimHolds(ns, n, input, value, w);
    }
    RestArity(ns[n].func, ns[n].fanins, input, value);
    SameFeeds(ns, ns', fo, vals, cst, rank, top, prog, input, n);
  }

  lemma RestArity(f: Func, ins: seq<nat>, x: nat, value: bool)
    requires PropArity(f, |ins|) && NoDup(ins) && x in ins && !Controlled(f, value)
    ensures PropArity(Rest(f, value, |Remove(ins, x)|), |Remove(ins, x)|)
  {
    RemoveShape(ins, x);
  }

  /** The bookkeeping of a gate change that only takes the fixed fanin `input` away. */
  lemma SameFeeds(
      ns: seq<Node>, ns': seq<Node>, fo: seq<seq<nat>>, vals: iset<Model>, cst: map<nat, bool>, rank: seq<nat>,
      top: nat, prog: set<nat>, input: nat, n: nat)
    requires Inv(ns, fo, vals, cst, rank, top, prog) && input in prog && n < |ns| && |ns'| == |ns|
    requires forall g :: 0 <= g < |ns| && g != n ==> ns'[g] == ns[g]
    requires IsGate(ns, n) && IsGate(ns', n) && NoDup(ns'[n].fanins)
    requires n !in cst ==> PropArity(ns'[n].func, |ns'[n].fanins|) && forall w :: w in vals ==> GateOk(ns', w, n)
    requires n in cst ==> ns'[n].func != Xor && ns'[n].func != Xnor && ns'[n].func != Mux
    requires forall a: nat, g: nat :: Feeds(ns', a, g) <==> Feeds(ns, a, g) && !(a == input && g == n)
    ensures Inv(ns', fo, vals, cst, rank, top, prog) && Trimmed(ns, ns', cst, cst, input, n)
  {
    forall a: nat | a < |ns| && a !in cst
      ensures MirrorAt(ns', fo, a)
    {
      assert MirrorAt(ns, fo, a);
    }
    forall w, g: nat | w in vals && IsGate(ns', g) && g !in cst
      ensures GateOk(ns', w, g)
    {
      assert IsGate(ns, g);
      assert GateOk(ns, w, g);
    }
  }

  /** Gate `n` becomes constant: it loses the fixed fanin and gets its value. */
  lemma FixGate(
      ns: seq<Node>, fo: seq<seq<nat>>, vals: iset<Model>, cst: map<nat, bool>, rank: seq<nat>, top: nat,
      prog: set<nat>, n: nat, input: nat, value: bool)
    requires Inv(ns, fo, vals, cst, rank, top, prog) && input in prog && cst[input] == value
    requires Feeds(ns, input, n) && n !in cst && Controlled(ns[n].func, value)
    ensures var ns' := ns[n := ns[n].(fanins := Remove(ns[n].fanins, input))];
      && Inv(ns', fo, vals, cst[n := ControlledTo(ns[n].func, value)], rank, top, prog + {n})
      && Trimmed(ns, ns', cst, cst, input, n) && MirrorAt(ns', fo, n)
  {
    var ns' := ns[n := ns[n].(fanins := Remove(ns[n].fanins, input))];
    var cst' := cst[n := ControlledTo(ns[n].func, value)];
    RemoveShape(ns[n].fanins, input);
    assert forall a: nat, g: nat :: Feeds(ns', a, g) <==> Feeds(ns, a, g) && !(a == input && g == n);
    forall w | w in vals ensures Bit(w, n) == cst'[n] {
      assert GateOk(ns, w, n);
      TrimFixes(ns, n, input, value, w);
    }
    forall a: nat | a < |ns| && a !in cst
      ensures MirrorAt(ns', fo, a)
    {
      assert MirrorAt(ns, fo, a);
    }
    forall w, g: nat | w in vals && IsGate(ns', g) && g !in cst'
      ensures GateOk(ns', w, g)
    {
      assert IsGate(ns, g);
      assert GateOk(ns, w, g);
    }
  }

  /** `n` was cut from the gates in `done`, and nodes that became fixed from all theirs. */
  ghost predicate CutFrom(
    ns: seq<Node>, ns': seq<Node>, cst: map<nat, bool>, cst': map<nat, bool>, n: nat, done: seq<nat>)
  {
    && |ns'| == |ns|
    && (forall g: nat :: g < |ns| ==> ns'[g].Gate? == ns[g].Gate? && (!ns[g].Gate? ==> ns'[g] == ns[g]))
    && (forall c :: c in cst' && c !in cst ==> IsGate(ns, c))
    && (forall a: nat, g: nat :: Feeds(ns', a, g) <==>
          Feeds(ns, a, g) && !(a == n && g in done) && !(a in cst' && a !in cst))
  }

  lemma CutFromStep(
      ns: seq<Node>, ns1: seq<Node>, ns2: seq<Node>, cst: map<nat, bool>, cst1: map<nat, bool>, cst2: map<nat, bool>,
      n: nat, done: seq<nat>, m: nat)
    requires CutFrom(ns, ns1, cst, cst1, n, done) && Trimmed(ns1, ns2, cst1, cst2, n, m)
    requires Grows(cst, cst1) && Grows(cst1, cst2)
    ensures CutFrom(ns, ns2, cst, cst2, n, done + [m])
  {
  }

  ghost predicate FanoutsKept(fo: seq<seq<nat>>, fo': seq<seq<nat>>, cst: map<nat, bool>, cst': map<nat, bool>) {
    |fo'| == |fo| && forall a :: 0 <= a < |fo| && !(a in cst' && a !in cst) ==> fo'[a] == fo[a]
  }

  lemma FanoutsKeptTrans(
      fo: seq<seq<nat>>, fo1: seq<seq<nat>>, fo2: seq<seq<nat>>, cst: map<nat, bool>, cst1: map<nat, bool>,
      cst2: map<nat, bool>)
    requires FanoutsKept(fo, fo1, cst, cst1) && FanoutsKept(fo1, fo2, cst1, cst2)
    requires Grows(cst, cst1) && Grows(cst1, cst2)
    ensures FanoutsKept(fo, fo2, cst, cst2) && Grows(cst, cst2)
  {
  }

  lemma KeptAt(fo: seq<seq<nat>>, fo': seq<seq<nat>>, cst: map<nat, bool>, cst': map<nat, bool>, n: nat)
    requires FanoutsKept(fo, fo', cst, cst') && Grows(cst, cst') && n in cst && n < |fo|
    ensures |fo'| == |fo| && fo'[n] == fo[n] && n in cst' && cst'[n] == cst[n]
  {
  }

  lemma KeptOthers(fo: seq<seq<nat>>, fo': seq<seq<nat>>, cst: map<nat, bool>, cst': map<nat, bool>, n: nat)
    requires FanoutsKept(fo, fo', cst, cst') && n < |fo|
    ensures |fo'| == |fo|
    ensures forall a :: 0 <= a < |fo| && a != n && !(a in cst' && a !in cst) ==> fo'[n := []][a] == fo[a]
  {
  }

  lemma StartCut(ns: seq<Node>, fo: seq<seq<nat>>, cst: map<nat, bool>, n: nat)
    ensures CutFrom(ns, ns, cst, cst, n, []) && FanoutsKept(fo, fo, cst, cst) && Grows(cst, cst)
  {
  }

  /** The next fanout of `n` is still fed by it. */
  lemma NextFanout(
      ns0: seq<Node>, fo0: seq<seq<nat>>, cst0: map<nat, bool>,
      ns: seq<Node>, fo: seq<seq<nat>>, vals: iset<Model>, cst: map<nat, bool>, rank: seq<nat>, top: nat,
      prog: set<nat>, n: nat, i: nat)
    requires n < |fo0| && MirrorAt(ns0, fo0, n) && n in cst0 && i < |fo0[n]|
    requires CutFrom(ns0, ns, cst0, cst, n, fo0[n][..i]) && Inv(ns, fo, vals, cst, rank, top, prog)
    ensures var m := fo0[n][i]; Feeds(ns, n, m) && m < |rank| && n < |rank| && rank[n] < rank[m] <= top
  {
    var m := fo0[n][i];
    assert m in fo0[n];
    assert m !in fo0[n][..i];
  }

  /** Once cut from all its fanouts, `n` may drop them. */
  lemma AllCut(
      ns0: seq<Node>, fo0: seq<seq<nat>>, cst0: map<nat, bool>,
      ns: seq<Node>, fo: seq<seq<nat>>, vals: iset<Model>, cst: map<nat, bool>, rank: seq<nat>, top: nat,
      prog: set<nat>, n: nat)
    requires n < |fo0| && MirrorAt(ns0, fo0, n) && n in cst0 && n in prog
    requires CutFrom(ns0, ns, cst0, cst, n, fo0[n]) && Inv(ns, fo, vals, cst, rank, top, prog)
    ensures n < |fo| && Inv(ns, fo[n := []], vals, cst, rank, top, prog - {n})
  {
    var fo' := fo[n := []];
    forall a: nat | a < |ns| && a !in cst
      ensures MirrorAt(ns, fo', a)
    {
      assert MirrorAt(ns, fo, a);
    }
    forall g: nat ensures !Feeds(ns, n, g) {
      assert Feeds(ns0, n, g) ==> g in fo0[n];
    }
  }

  /** What constant propagation expects of a netlist. */
  ghost predicate Propagable(c: Ckt) {
    forall g: nat :: IsGate(c.nodes, g) ==> PropArity(c.nodes[g].func, |c.nodes[g].fanins|) && NoDup(c.nodes[g].fanins)
  }

  /** `add_fanout`: unless it is there already. */
  function AddFanout(fo: seq<seq<nat>>, a: nat, g: nat): seq<seq<nat>>
    requires a < |fo|
  {
    if g in fo[a] then fo else fo[a := fo[a] + [g]]
  }

  /** `_init_fanouts`. */
  method InitFanouts(ns: seq<Node>, gates: seq<nat>) returns (fo: seq<seq<nat>>)
    requires forall g :: g in gates ==> IsGate(ns, g) && forall a :: a in ns[g].fanins ==> a < |ns|
    ensures |fo| == |ns|
    ensures forall a: nat :: a < |ns| ==> NoDup(fo[a]) && forall g: nat :: g in fo[a] <==> g in gates && Feeds(ns, a, g)
  {
    fo := seq(|ns|, _ => []);
    for i := 0 to |gates|
      invariant FanoutsTo(ns, fo, gates[..i], 0, [])
    {
      var g := gates[i];
      assert g in gates;
      for j := 0 to |ns[g].fanins|
        invariant FanoutsTo(ns, fo, gates[..i], g, ns[g].fanins[..j])
      {
        var a := ns[g].fanins[j];
        assert a in ns[g].fanins && ns[g].fanins[..j + 1] == ns[g].fanins[..j] + [a];
        fo := AddFanout(fo, a, g);
      }
      assert ns[g].fanins[..|ns[g].fanins|] == ns[g].fanins;
      assert gates[..i + 1] == gates[..i] + [g];
    }
    assert gates[..|gates|] == gates;
  }

  /** Fanouts for the gates in `done`, and for gate `g` those of `ins`. */
  ghost predicate FanoutsTo(ns: seq<Node>, fo: seq<seq<nat>>, done: seq<nat>, g: nat, ins: seq<nat>) {
    && |fo| == |ns|
    && forall a: nat :: a < |ns| ==>
      NoDup(fo[a]) && forall h: nat :: h in fo[a] <==> (h in done && Feeds(ns, a, h)) || (h == g && a in ins)
  }

  ghost function MaxOf(s: seq<nat>): (m: nat)
    ensures forall i :: 0 <= i < |s| ==> s[i] <= m
  {
    if s == [] then 0 else
      var r := MaxOf(s[..|s| - 1]);
      if s[|s| - 1] < r then r else s[|s| - 1]
  }

  lemma FreshInv(c: Ckt, fo: seq<seq<nat>>, rank: seq<nat>)
    requires WellFormed(c) && IsRank(c, rank) && Propagable(c) && |fo| == |c.nodes|
    requires forall a: nat :: a < |c.nodes| ==>
      NoDup(fo[a]) && forall g: nat :: g in fo[a] <==> g in c.gates && Feeds(c.nodes, a, g)
    ensures Inv(c.nodes, fo, iset w | IsVal(c, w), map[], rank, MaxOf(rank), {})
  {
    forall a: nat | a < |c.nodes| ensures MirrorAt(c.nodes, fo, a) {
      forall g: nat ensures g in fo[a] <==> Feeds(c.nodes, a, g) {
      }
    }
    forall w, g: nat | IsVal(c, w) && IsGate(c.nodes, g)
      ensures GateOk(c.nodes, w, g)
    {
      assert GateHolds(c, w, g);
    }
  }

  class Netw {
    var nodes: seq<Node>
    var fanouts: seq<seq<nat>>
    /** The valuations the netlist is compared with. */
    ghost var vals: iset<Model>
    /** Nodes whose value is fixed in all of them. */
    var cst: map<nat, bool>
    ghost const rank: seq<nat>
    ghost const top: nat

    /** An acyclic netlist, compared with its own valuations. */
    constructor (c: Ckt)
      requires WellFormed(c) && Acyclic(c) && Propagable(c)
      ensures Holds({}) && nodes == c.nodes && cst == map[]
      ensures vals == iset w | IsVal(c, w)
    {
      ghost var r :| IsRank(c, r);
      var fo := InitFanouts(c.nodes, c.gates);
      nodes, fanouts := c.nodes, fo;
      vals, cst := iset w | IsVal(c, w), map[];
      rank, top := r, MaxOf(r);
      new;
      FreshInv(c, fo, r);
    }

    ghost predicate Holds(prog: set<nat>)
      reads this
    {
      Inv(nodes, fanouts, vals, cst, rank, top, prog)
    }

    /** The loop of `const_propagate` over the fanouts of `n`, which then has none. */
    method PropagateFanouts(n: nat, value: bool, ghost prog: set<nat>)
      requires Holds(prog) && n in prog && MirrorAt(nodes, fanouts, n) && (fanouts[n] == [] || cst[n] == value)
      requires forall p :: p in prog ==> p < |rank| && rank[p] <= rank[n]
      modifies this`nodes, this`fanouts, this`cst
      ensures Holds(prog - {n}) && Grows(old(cst), cst)
      ensures CutFrom(old(nodes), nodes, old(cst), cst, n, old(fanouts)[n])
      ensures |fanouts| == |old(fanouts)| && fanouts[n] == []
      ensures SameUpTo(old(nodes), nodes, rank, rank[n])
      ensures forall a :: 0 <= a < |fanouts| && a != n && !(a in cst && a !in old(cst)) ==>
        fanouts[a] == old(fanouts)[a]
      decreases top - rank[n], 0
    {
      hide Inv, MirrorAt, CutFrom, Trimmed, FanoutsKept, Grows, Feeds, SameUpTo, Trim;
      StartSame(nodes, rank, rank[n]);
      ghost var ns0, fo0, cst0 := nodes, fanouts, cst;
      StartCut(ns0, fo0, cst0, n);
      Sizes(prog, n);
      assert fo0[n][..0] == [];
      var i := 0;
      while i != |fanouts[n]|
        invariant |fanouts| == |fo0| && fanouts[n] == fo0[n] && 0 <= i <= |fo0[n]| && n in cst
        invariant (fo0[n] == [] || cst[n] == value)
        invariant Holds(prog) && Grows(cst0, cst) && FanoutsKept(fo0, fanouts, cst0, cst)
        invariant CutFrom(ns0, nodes, cst0, cst, n, fo0[n][..i]) && SameUpTo(ns0, nodes, rank, rank[n])
        decreases |fo0[n]| - i
      {
        var m := fanouts[n][i];
        ghost var ns1, cst1, fo1 := nodes, cst, fanouts;
        NextFanout(ns0, fo0, cst0, nodes, fanouts, vals, cst, rank, top, prog, n, i);
        ConstPropagate(m, n, value, prog);
        SameUpToTrans(ns0, ns1, nodes, rank, rank[n], m);
        CutFromStep(ns0, ns1, nodes, cst0, cst1, cst, n, fo0[n][..i], m);
        FanoutsKeptTrans(fo0, fo1, fanouts, cst0, cst1, cst);
        KeptAt(fo1, fanouts, cst1, cst, n);
        assert fo0[n][..i + 1] == fo0[n][..i] + [m];
        i := i + 1;
      }
      assert fo0[n][..i] == fo0[n];
      AllCut(ns0, fo0, cst0, nodes, fanouts, vals, cst, rank, top, prog, n);
      KeptOthers(fo0, fanouts, cst0, cst, n);
      fanouts := fanouts[n := []];
    }

    lemma Sizes(prog: set<nat>, n: nat)
      requires Holds(prog) && n in prog
      ensures n < |nodes| == |fanouts| == |rank| && n in cst
    {
    }

    /** `const_propagate` at a gate whose fanin `input` has a fixed value. */
    method ConstPropagate(n: nat, input: nat, value: bool, ghost prog: set<nat>)
      requires Holds(prog) && input in prog && cst[input] == value && Feeds(nodes, input, n)
      requires forall p :: p in prog ==> p < |rank| && rank[p] <= rank[input]
      requires n < |rank| && rank[n] <= top
      modifies this`nodes, this`fanouts, this`cst
      ensures Holds(prog) && Grows(old(cst), cst)
      ensures Trimmed(old(nodes), nodes, old(cst), cst, input, n)
      ensures FanoutsKept(old(fanouts), fanouts, old(cst), cst)
      ensures n < |nodes| == |old(nodes)| && old(nodes)[n].Gate? && nodes[n] == Trim(old(nodes)[n], input, value)
      ensures SameUpTo(old(nodes)[n := nodes[n]], nodes, rank, rank[n])
      decreases top - rank[n], 3
    {
      hide Inv, MirrorAt, CutFrom, Trimmed, FanoutsKept, Grows, Feeds, Remove, SameUpTo;
      ghost var ns0, fo0, cst0 := nodes, fanouts, cst;
      GateFacts(prog, n, input);
      var f := nodes[n].func;
      if Controlled(f, value) {
        FixGateTo(n, input, value, prog);
      } else {
        nodes := nodes[n := nodes[n].(fanins := Remove(nodes[n].fanins, input))];
        nodes := nodes[n := nodes[n].(func := Rest(f, value, |nodes[n].fanins|))];
        assert nodes == ns0[n := Trim(ns0[n], input, value)];
        ShrinkOrDead(ns0, fo0, vals, cst0, rank, top, prog, n, input, value);
        StartCut(nodes, fanouts, cst, n);
        StartSame(nodes, rank, rank[n]);
      }
    }

    /** An and with a 0, an or with a 1, an inverter or a buffer: the output is constant. */
    method FixGateTo(n: nat, input: nat, value: bool, ghost prog: set<nat>)
      requires Holds(prog) && input in prog && cst[input] == value && Feeds(nodes, input, n)
      requires forall p :: p in prog ==> p < |rank| && rank[p] <= rank[input]
      requires n < |rank| && rank[n] <= top && n < |nodes| && nodes[n].Gate? && Controlled(nodes[n].func, value)
      modifies this`nodes, this`fanouts, this`cst
      ensures Holds(prog) && Grows(old(cst), cst)
      ensures Trimmed(old(nodes), nodes, old(cst), cst, input, n)
      ensures FanoutsKept(old(fanouts), fanouts, old(cst), cst)
      ensures |nodes| == |old(nodes)| && nodes[n] == Trim(old(nodes)[n], input, value)
      ensures SameUpTo(old(nodes)[n := nodes[n]], nodes, rank, rank[n])
      decreases top - rank[n], 2
    {
      hide Inv, MirrorAt, CutFrom, Trimmed, FanoutsKept, Grows, Feeds, Remove, SameUpTo;
      ghost var ns0, cst0 := nodes, cst;
      FixFanouts(n, input, value, prog);
      ghost var ns2 := nodes;
      if |nodes[n].fanins| == 1 {
        nodes := nodes[n := nodes[n].(func := Rest(nodes[n].func, value, 1))];
      }
      FuncOnly(ns0, ns2, nodes, fanouts, vals, cst0, cst, rank, top, prog, input, n);
      SameWith(ns0, ns2, nodes, rank, n);
    }

    method FixFanouts(n: nat, input: nat, value: bool, ghost prog: set<nat>)
      requires Holds(prog) && input in prog && cst[input] == value && Feeds(nodes, input, n)
      requires forall p :: p in prog ==> p < |rank| && rank[p] <= rank[input]
      requires n < |rank| && rank[n] <= top && n < |nodes| && nodes[n].Gate? && Controlled(nodes[n].func, value)
      modifies this`nodes, this`fanouts, this`cst
      ensures Holds(prog) && Grows(old(cst), cst) && n in cst
      ensures Trimmed(old(nodes), nodes, old(cst), cst, input, n)
      ensures FanoutsKept(old(fanouts), fanouts, old(cst), cst)
      ensures |nodes| == |old(nodes)| && nodes[n] == old(nodes)[n].(fanins := Remove(old(nodes)[n].fanins, input))
      ensures SameUpTo(old(nodes)[n := nodes[n]], nodes, rank, rank[n])
      decreases top - rank[n], 1
    {
      hide Inv, MirrorAt, CutFrom, Trimmed, FanoutsKept, Grows, Feeds, Remove, SameUpTo;
      ghost var ns0, fo0, cst0 := nodes, fanouts, cst;
      GateFacts(prog, n, input);
      var f := nodes[n].func;
      nodes := nodes[n := nodes[n].(fanins := Remove(nodes[n].fanins, input))];
      FixOrDead(ns0, fo0, vals, cst0, rank, top, prog, n, input, value);
      cst := if n in cst then cst else cst[n := ControlledTo(f, value)];
      ghost var ns1, cst1 := nodes, cst;
      PropagateFanouts(n, ControlledTo(f, value), prog + {n});
      assert prog + {n} - {n} == prog;
      assert n in cst by {
        GrowsAt(cst1, cst, n);
      }
      FixedTrims(ns0, ns1, nodes, fo0, cst0, cst1, cst, input, n);
      FixedKept(fo0, fanouts, cst0, cst1, cst, n);
      SameBehind(ns0, ns1, nodes, rank, n);
    }

    lemma GateFacts(prog: set<nat>, n: nat, input: nat)
      requires Holds(prog) && input in prog && Feeds(nodes, input, n)
      requires forall p :: p in prog ==> p < |rank| && rank[p] <= rank[input]
      ensures n < |nodes| == |fanouts| == |rank| && nodes[n].Gate? && n !in prog
      ensures forall p :: p in prog + {n} ==> p < |rank| && rank[p] <= rank[n]
    {
    }

    /** `const_propagate` at an input: afterwards only valuations with that bit are considered. */
    method PropagateInput(k: nat, value: bool)
      requires Holds({}) && k < |nodes| && !nodes[k].Gate? && k !in cst
      modifies this
      ensures Holds({}) && Grows(old(cst), cst) && k in cst && cst[k] == value
      ensures vals == WithBit(old(vals), k, value)
      ensures |nodes| == |old(nodes)| && forall a: nat, g: nat :: Feeds(nodes, a, g) ==> Feeds(old(nodes), a, g)
      ensures forall g: nat :: g < |nodes| ==>
        nodes[g].Gate? == old(nodes)[g].Gate? && (!nodes[g].Gate? ==> nodes[g] == old(nodes)[g])
      ensures forall c :: c in cst && c !in old(cst) && c != k ==> c < |nodes| && old(nodes)[c].Gate?
    {
      FixInput(nodes, fanouts, vals, cst, rank, top, k, value);
      ghost var ns0, cst0 := nodes, cst;
      vals := WithBit(vals, k, value);
      cst := cst[k := value];
      ghost var cst1 := cst;
      PropagateFanouts(k, value, {k});
      assert {k} - {k} == {};
      assert cst1[k] == value;
    }
  }

  /** An input gets a value: only valuations with that bit stay under consideration. */
  lemma FixInput(
      ns: seq<Node>, fo: seq<seq<nat>>, vals: iset<Model>, cst: map<nat, bool>, rank: seq<nat>, top: nat, k: nat,
      value: bool)
    requires Inv(ns, fo, vals, cst, rank, top, {}) && k < |ns| && !ns[k].Gate? && k !in cst
    ensures Inv(ns, fo, WithBit(vals, k, value), cst[k := value], rank, top, {k})
    ensures |fo| == |rank| == |ns| && MirrorAt(ns, fo, k)
  {
    var cst' := cst[k := value];
    forall a: nat | a < |ns| && a !in cst'
      ensures MirrorAt(ns, fo, a)
    {
      assert a !in cst;
    }
  }

  ghost function WithBit(vals: iset<Model>, k: nat, value: bool): iset<Model> {
    iset w | w in vals && Bit(w, k) == value
  }

  /** A gate with a controlling fanin, whether it gets its value now or had one already. */
  lemma FixOrDead(
      ns: seq<Node>, fo: seq<seq<nat>>, vals: iset<Model>, cst: map<nat, bool>, rank: seq<nat>, top: nat,
      prog: set<nat>, n: nat, input: nat, value: bool)
    requires Inv(ns, fo, vals, cst, rank, top, prog) && input in prog && cst[input] == value
    requires Feeds(ns, input, n) && Controlled(ns[n].func, value) && n !in prog
    ensures var ns' := ns[n := ns[n].(fanins := Remove(ns[n].fanins, input))];
      var cst' := if n in cst then cst else cst[n := ControlledTo(ns[n].func, value)];
      && Inv(ns', fo, vals, cst', rank, top, prog + {n}) && Trimmed(ns, ns', cst, cst, input, n)
      && n < |fo| && MirrorAt(ns', fo, n) && (fo[n] == [] || cst'[n] == ControlledTo(ns[n].func, value))
      && (n in cst ==> fo[n] == [])
  {
    if n in cst {
      RemoveShape(ns[n].fanins, input);
      SameFeeds(ns, ns[n := ns[n].(fanins := Remove(ns[n].fanins, input))], fo, vals, cst, rank, top, prog, input, n);
    } else {
      FixGate(ns, fo, vals, cst, rank, top, prog, n, input, value);
    }
  }

  /** A gate with a fanin that does not fix it. */
  lemma ShrinkOrDead(
      ns: seq<Node>, fo: seq<seq<nat>>, vals: iset<Model>, cst: map<nat, bool>, rank: seq<nat>, top: nat,
      prog: set<nat>, n: nat, input: nat, value: bool)
    requires Inv(ns, fo, vals, cst, rank, top, prog) && input in prog && cst[input] == value
    requires Feeds(ns, input, n) && !Controlled(ns[n].func, value)
    ensures var ns' := ns[n := Trim(ns[n], input, value)];
      Inv(ns', fo, vals, cst, rank, top, prog) && Trimmed(ns, ns', cst, cst, input, n)
  {
    if n in cst {
      TrimShape(ns, n, input, value);
      SameFeeds(ns, ns[n := Trim(ns[n], input, value)], fo, vals, cst, rank, top, prog, input, n);
    } else {
      ShrinkGate(ns, fo, vals, cst, rank, top, prog, n, input, value);
    }
  }

  /** Taking the fanin away and then cutting the gate off amounts to one trimming step. */
  lemma FixedTrims(
      ns0: seq<Node>, ns1: seq<Node>, ns2: seq<Node>, fo: seq<seq<nat>>,
      cst0: map<nat, bool>, cst1: map<nat, bool>, cst2: map<nat, bool>, input: nat, n: nat)
    requires Trimmed(ns0, ns1, cst0, cst0, input, n) && n < |fo| && MirrorAt(ns1, fo, n)
    requires CutFrom(ns1, ns2, cst1, cst2, n, fo[n]) && Grows(cst1, cst2)
    requires n in cst1 && (forall c :: c in cst1 <==> c in cst0 || c == n) && (n in cst0 ==> fo[n] == [])
    requires IsGate(ns0, n)
    ensures Trimmed(ns0, ns2, cst0, cst2, input, n)
  {
    forall a: nat, g: nat
      ensures Feeds(ns2, a, g) <==> Feeds(ns0, a, g) && !(a == input && g == n) && !(a in cst2 && a !in cst0)
    {
      assert Feeds(ns1, a, g) <==> Feeds(ns0, a, g) && !(a == input && g == n);
      if a == n {
        assert Feeds(ns1, n, g) ==> g in fo[n];
      }
    }
  }

  lemma GrowsAt(cst: map<nat, bool>, cst': map<nat, bool>, n: nat)
    requires Grows(cst, cst') && n in cst
    ensures n in cst'
  {
  }

  lemma FixedKept(
      fo: seq<seq<nat>>, fo': seq<seq<nat>>, cst0: map<nat, bool>, cst1: map<nat, bool>, cst2: map<nat, bool>, n: nat)
    requires n < |fo| == |fo'| && fo'[n] == [] && (n in cst0 ==> fo[n] == [])
    requires forall a :: 0 <= a < |fo| && a != n && !(a in cst2 && a !in cst1) ==> fo'[a] == fo[a]
    requires Grows(cst1, cst2) && n in cst1 && forall c :: c in cst1 <==> c in cst0 || c == n
    requires forall c :: c in cst0 ==> cst1[c] == cst0[c]
    ensures FanoutsKept(fo, fo', cst0, cst2) && Grows(cst0, cst2)
  {
  }

  /** Renaming the function of a constant gate changes nothing that matters. */
  lemma FuncOnly(
      ns0: seq<Node>, ns: seq<Node>, ns': seq<Node>, fo: seq<seq<nat>>, vals: iset<Model>, cst0: map<nat, bool>,
      cst: map<nat, bool>, rank: seq<nat>, top: nat, prog: set<nat>, input: nat, n: nat)
    requires Inv(ns, fo, vals, cst, rank, top, prog) && Trimmed(ns0, ns, cst0, cst, input, n) && n in cst
    requires IsGate(ns, n)
    requires |ns'| == |ns| && ns'[n].Gate?
    requires ns' == ns || ns' == ns[n := ns[n].(func := ns'[n].func)]
    requires ns'[n].func != Xor && ns'[n].func != Xnor && ns'[n].func != Mux
    ensures Inv(ns', fo, vals, cst, rank, top, prog) && Trimmed(ns0, ns', cst0, cst, input, n)
  {
    assert forall a: nat, g: nat :: Feeds(ns', a, g) <==> Feeds(ns, a, g);
    forall a: nat | a < |ns| && a !in cst
      ensures MirrorAt(ns', fo, a)
    {
      assert MirrorAt(ns, fo, a);
    }
    forall w, g: nat | w in vals && IsGate(ns', g) && g !in cst
      ensures GateOk(ns', w, g)
    {
      assert GateOk(ns, w, g);
    }
  }
}
