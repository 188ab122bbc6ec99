/**
 `ckt_t::rewrite_keys`: known key bits are propagated as constants, and the netlist
 is cleaned up: dead keys, dead gates, buffers and double inverters go.  The
 outputs of what is left are those of the original netlist with these key bits.
 */
module KeyRewrite {
  import opened Cnf
  import opened Netlist
  import opened Rewriting
  import opened ConstProp
  import opened BufferPass

  function Filter(list: seq<nat>, del: set<nat>): (r: seq<nat>)
    ensures forall x :: x in r <==> x in list && x !in del
    ensures |r| <= |list| && ((exists x :: x in list && x in del) ==> |r| < |list|)
  {
    if list == [] then [] else
      assert list == [list[0]] + list[1..];
      (if list[0] in del then [] else [list[0]]) + Filter(list[1..], del)
  }

  /** `_delete_from_list`. */
  method DeleteFromList(list: seq<nat>, del: set<nat>) returns (r: seq<nat>)
    ensures r == Filter(list, del)
  {
    r := [];
    var i := |list|;
    while i != 0
      invariant 0 <= i <= |list| && r == Filter(list[i..], del)
    {
      i := i - 1;
      assert list[i..] == [list[i]] + list[i + 1..];
      if list[i] !in del {
        r := [list[i]] + r;
      }
    }
    assert list[0..] == list;
  }

  /** Listed gates hold in every reference valuation, unless they are constant, unread and no output. */
  ghost predicate InForce(
    ns: seq<Node>, fo: seq<seq<nat>>, vals: iset<Model>, cst: map<nat, bool>, gates: seq<nat>, out: seq<bool>)
  {
    && |fo| == |out| == |ns|
    && (forall g :: g in gates ==> g < |ns|)
    && (forall g :: g in gates && g in cst ==> fo[g] == [] && !out[g])
    && (forall g :: g in gates && g !in cst ==> Ordinary(ns, g))
    && (forall g, w :: g in gates && g !in cst && w in vals ==> GateOk(ns, w, g))
  }

  predicate DeadGate(fo: seq<seq<nat>>, out: seq<bool>, g: nat) {
    Unread(fo, g) && g < |out| && !out[g]
  }

  lemma {:induction false} FilterInOrder(ns: seq<Node>, gs: seq<nat>, del: set<nat>)
    requires InOrder(ns, gs)
    ensures InOrder(ns, Filter(gs, del))
  {
    if gs != [] {
      var rest := Filter(gs[1..], del);
      assert forall p, q :: 0 <= p <= q < |gs[1..]| ==> gs[1..][p] == gs[p + 1] && gs[1..][q] == gs[q + 1];
      FilterInOrder(ns, gs[1..], del);
      forall q | 0 <= q < |rest|
        ensures !Feeds(ns, rest[q], gs[0])
      {
        assert rest[q] in rest;
        var k :| 0 <= k < |gs[1..]| && gs[1..][k] == rest[q];
        assert gs[k + 1] == rest[q];
      }
    }
  }

  lemma FilterOrderly(ns: seq<Node>, fo: seq<seq<nat>>, gs: seq<nat>, del: set<nat>)
    requires Orderly(ns, fo, gs)
    ensures Orderly(ns, fo, Filter(gs, del))
  {
    FilterInOrder(ns, gs, del);
  }

  /** Key inputs are listed and are not outputs; circuit inputs and outputs are listed. */
  ghost predicate Lists(ns: seq<Node>, out: seq<bool>, list: seq<nat>, keys: seq<nat>) {
    && |out| == |ns|
    && (forall k :: k in keys ==> k in list && k < |ns| && ns[k].KeyIn? && !out[k])
    && (forall a: nat :: a < |ns| && (ns[a].CktIn? || out[a]) ==> a in list)
    && (forall a: nat :: a in list && a < |ns| && ns[a].KeyIn? ==> a in keys)
  }

  ghost predicate CleanLists(
    ns: seq<Node>, fo: seq<seq<nat>>, rank: seq<nat>, vals: iset<Model>, cst: map<nat, bool>, out: seq<bool>,
    list: seq<nat>, keys: seq<nat>, gates: seq<nat>)
  {
    Lists(ns, out, list, keys) && Wired(ns, fo, rank, gates, list) && InForce(ns, fo, vals, cst, gates, out)
  }

  lemma KeysGone(
      ns: seq<Node>, fo: seq<seq<nat>>, rank: seq<nat>, vals: iset<Model>, cst: map<nat, bool>, out: seq<bool>,
      list: seq<nat>, keys: seq<nat>, gates: seq<nat>, del: set<nat>)
    requires CleanLists(ns, fo, rank, vals, cst, out, list, keys, gates)
    requires forall k :: k in del <==> k in keys && Unread(fo, k)
    ensures CleanLists(ns, fo, rank, vals, cst, out, Filter(list, del), Filter(keys, del), gates)
    ensures del != {} ==> |Filter(list, del)| < |list|
  {
    forall a: nat, g: nat | g in gates && Feeds(ns, a, g)
      ensures a !in del
    {
      assert g in fo[a];
    }
    if d :| d in del {
      assert d in list;
    }
  }

  lemma GatesGone(
      ns: seq<Node>, fo: seq<seq<nat>>, rank: seq<nat>, vals: iset<Model>, cst: map<nat, bool>, out: seq<bool>,
      list: seq<nat>, keys: seq<nat>, gates: seq<nat>, del: set<nat>)
    requires CleanLists(ns, fo, rank, vals, cst, out, list, keys, gates)
    requires forall g :: g in del <==> g in gates && DeadGate(fo, out, g)
    ensures CleanLists(ns, fo, rank, vals, cst, out, Filter(list, del), keys, Filter(gates, del))
    ensures forall g :: g in Filter(gates, del) ==> g !in cst
    ensures del != {} ==> |Filter(list, del)| < |list|
  {
    forall a: nat, g: nat | g in gates && Feeds(ns, a, g)
      ensures a !in del
    {
      assert g in fo[a];
    }
    forall k | k in keys ensures k !in del {
      assert !IsGate(ns, k);
    }
    if d :| d in del {
      assert d in list;
    }
  }

  ghost function DeadKeys(fo: seq<seq<nat>>, keys: seq<nat>): set<nat> {
    set k | k in keys && Unread(fo, k)
  }

  ghost function DeadGates(fo: seq<seq<nat>>, out: seq<bool>, gs: seq<nat>): set<nat> {
    set g | g in gs && DeadGate(fo, out, g)
  }

  // ----- the rounds of _cleanup -----

  /** The part of the netlist that `_cleanup` changes. */
  datatype Part = Part(
    ns: seq<Node>, fo: seq<seq<nat>>, list: seq<nat>, ins: seq<nat>, keys: seq<nat>, gates: seq<nat>)

  /** Without the keys and gates nobody reads. */
  ghost function Pruned(p: Part, out: seq<bool>): Part {
    var keys, gates := DeadKeys(p.fo, p.keys), DeadGates(p.fo, out, p.gates);
    var list := Filter(Filter(p.list, keys), gates);
    Part(p.ns, p.fo, list, Filter(p.ins, keys), Filter(p.keys, keys), Filter(p.gates, gates))
  }

  /** What one round makes of the netlist; `None` where the assertion of `rewrite_buffers` fails. */
  ghost function AfterRound(p: Part, out: seq<bool>): Option<Part> {
    var t := Pruned(p, out);
    match BypassAll(t.ns, t.fo, t.gates)
    case None => None
    case Some(w) => Some(Pruned(t.(ns := w.ns, fo := w.fo), out))
  }

  /** The assertion holds in a round: no replaced gate then stands in for two nodes with a common reader. */
  ghost predicate RoundHolds(p: Part, rank: seq<nat>, out: seq<bool>) {
    var t := Pruned(p, out);
    NoClash(Layout(t.ns, rank, t.gates, t.list), t.fo, |t.gates|)
  }

  /** It holds in every round, and the rounds end with the first that removes nothing. */
  ghost predicate AllRoundsHold(p: Part, rank: seq<nat>, out: seq<bool>)
    decreases |p.list|
  {
    && RoundHolds(p, rank, out)
    && forall q :: AfterRound(p, out) == Some(q) && |q.list| < |p.list| ==> AllRoundsHold(q, rank, out)
  }

  /** What all rounds make of the netlist. */
  ghost function AfterRounds(p: Part, out: seq<bool>): Option<Part>
    decreases |p.list|
  {
    match AfterRound(p, out)
    case None => None
    case Some(q) => if |q.list| < |p.list| then AfterRounds(q, out) else Some(q)
  }

  // ----- what is gone from the lists -----

  /** From `p0` to `p` the keys `dk` and the gates `dg` went, all of them read by nobody in `p`. */
  ghost predicate Thinned(p0: Part, p: Part, out: seq<bool>, dk: set<nat>, dg: set<nat>) {
    && dk <= DeadKeys(p.fo, p0.keys) && dg <= DeadGates(p.fo, out, p0.gates)
    && p.keys == Filter(p0.keys, dk) && p.ins == Filter(p0.ins, dk)
    && p.gates == Filter(p0.gates, dg) && p.list == Filter(p0.list, dk + dg)
  }

  /** Exactly the keys nobody reads are gone, and the gates nobody reads that are no outputs. */
  ghost predicate OnlyDeadGone(p0: Part, p: Part, out: seq<bool>) {
    Thinned(p0, p, out, DeadKeys(p.fo, p0.keys), DeadGates(p.fo, out, p0.gates))
  }

  /** What that means for each key and gate. */
  lemma StaysIfRead(p0: Part, p: Part, out: seq<bool>)
    requires OnlyDeadGone(p0, p, out) && |p.fo| == |out|
    ensures forall k :: k in p0.keys && k < |p.fo| ==> (k in p.keys <==> p.fo[k] != [])
    ensures forall g :: g in p0.gates && g < |p.fo| ==> (g in p.gates <==> p.fo[g] != [] || out[g])
  {
    hide Filter;
  }

  /** The fanouts of nodes that are not listed stay. */
  ghost predicate OthersKeep(list: seq<nat>, fo: seq<seq<nat>>, fo': seq<seq<nat>>) {
    |fo'| == |fo| && forall a: nat :: a < |fo| && a !in list ==> fo'[a] == fo[a]
  }

  lemma FilterCons(x: nat, rest: seq<nat>, del: set<nat>)
    ensures Filter([x] + rest, del) == (if x in del then [] else [x]) + Filter(rest, del)
  {
    assert ([x] + rest)[1..] == rest;
  }

  lemma {:induction false} FilterTwice(list: seq<nat>, d: set<nat>, e: set<nat>)
    ensures Filter(Filter(list, d), e) == Filter(list, d + e)
  {
    if list != [] {
      var x, rest := list[0], list[1..];
      FilterTwice(rest, d, e);
      hide Filter;
      assert list == [x] + rest;
      FilterCons(x, rest, d);
      FilterCons(x, rest, d + e);
      FilterCons(x, Filter(rest, d), e);
      assert [] + Filter(rest, d) == Filter(rest, d) && [] + Filter(rest, d + e) == Filter(rest, d + e);
    }
  }

  lemma PruneThins(p: Part, out: seq<bool>)
    ensures Thinned(p, Pruned(p, out), out, DeadKeys(p.fo, p.keys), DeadGates(p.fo, out, p.gates))
  {
    FilterTwice(p.list, DeadKeys(p.fo, p.keys), DeadGates(p.fo, out, p.gates));
  }

  /** Removals add up, as long as the removed nodes' fanout lists stay as they are. */
  lemma ThinnedTrans(
      p0: Part, p1: Part, p2: Part, out: seq<bool>, dk: set<nat>, dg: set<nat>, dk': set<nat>, dg': set<nat>)
    requires Thinned(p0, p1, out, dk, dg) && Thinned(p1, p2, out, dk', dg') && OthersKeep(p1.list, p1.fo, p2.fo)
    ensures Thinned(p0, p2, out, dk + dk', dg + dg')
  {
    hide Filter;
    FilterTwice(p0.keys, dk, dk');
    FilterTwice(p0.ins, dk, dk');
    FilterTwice(p0.gates, dg, dg');
    FilterTwice(p0.list, dk + dg, dk' + dg');
    assert dk + dg + (dk' + dg') == (dk + dk') + (dg + dg');
    forall a | a in dk + dg ensures a !in p1.list && Unread(p2.fo, a) {
      assert Unread(p1.fo, a);
    }
  }

  /** Rewiring removes nothing. */
  lemma RewireThins(p: Part, ns: seq<Node>, fo: seq<seq<nat>>, out: seq<bool>)
    ensures Thinned(p, p.(ns := ns, fo := fo), out, {}, {})
  {
    FilterNone(p.keys);
    FilterNone(p.ins);
    FilterNone(p.gates);
    FilterNone(p.list);
    var none: set<nat> := {};
    assert none + none == none;
  }

  /** When nothing dead is left, everything dead has gone. */
  lemma AllDeadGone(p0: Part, p: Part, out: seq<bool>, dk: set<nat>, dg: set<nat>)
    requires Thinned(p0, p, out, dk, dg)
    requires (forall k :: k in p.keys ==> !Unread(p.fo, k)) && (forall g :: g in p.gates ==> !DeadGate(p.fo, out, g))
    ensures OnlyDeadGone(p0, p, out)
  {
    assert dk == DeadKeys(p.fo, p0.keys) by {
      forall k | k in DeadKeys(p.fo, p0.keys) ensures k in dk {
        assert k !in p.keys;
      }
    }
    assert dg == DeadGates(p.fo, out, p0.gates) by {
      forall g | g in DeadGates(p.fo, out, p0.gates) ensures g in dg {
        assert g !in p.gates;
      }
    }
  }

  /** What goes in one round. */
  lemma RoundThins(p0: Part, p1: Part, p2: Part, p3: Part, out: seq<bool>) returns (dk: set<nat>, dg: set<nat>)
    requires p1 == Pruned(p0, out) && p2 == p1.(ns := p2.ns, fo := p2.fo) && p3 == Pruned(p2, out)
    requires OthersKeep(p1.list, p1.fo, p2.fo)
    ensures Thinned(p0, p3, out, dk, dg) && OthersKeep(p0.list, p0.fo, p3.fo)
  {
    hide Thinned, DeadKeys, DeadGates, DeadGate;
    PruneThins(p0, out);
    RewireThins(p1, p2.ns, p2.fo, out);
    PruneThins(p2, out);
    var dk1, dg1 := DeadKeys(p0.fo, p0.keys), DeadGates(p0.fo, out, p0.gates);
    ThinnedTrans(p0, p1, p2, out, dk1, dg1, {}, {});
    dk, dg := dk1 + {} + DeadKeys(p2.fo, p2.keys), dg1 + {} + DeadGates(p2.fo, out, p2.gates);
    ThinnedTrans(p0, p2, p3, out, dk1 + {}, dg1 + {}, DeadKeys(p2.fo, p2.keys), DeadGates(p2.fo, out, p2.gates));
  }

  lemma ThinnedNone(p: Part, out: seq<bool>)
    ensures Thinned(p, p, out, {}, {})
  {
    RewireThins(p, p.ns, p.fo, out);
    assert p.(ns := p.ns, fo := p.fo) == p;
  }

  lemma AllRoundsStep(p: Part, out: seq<bool>)
    ensures AfterRound(p, out).None? ==> AfterRounds(p, out).None?
    ensures forall q :: AfterRound(p, out) == Some(q) ==>
      AfterRounds(p, out) == if |q.list| < |p.list| then AfterRounds(q, out) else Some(q)
  {
  }

  lemma RoundsStep(p: Part, rank: seq<nat>, out: seq<bool>)
    ensures AllRoundsHold(p, rank, out) ==> RoundHolds(p, rank, out)
    ensures forall q :: RoundHolds(p, rank, out) && AfterRound(p, out) == Some(q) ==>
      (AllRoundsHold(p, rank, out) <==> (|q.list| < |p.list| ==> AllRoundsHold(q, rank, out)))
  {
  }

  /** Every gate is listed once, and fanout lists are true. */
  ghost predicate Exact(p: Part) {
    NoDup(p.gates) && Truthful(p.ns, p.fo)
  }

  lemma PrunedParts(p: Part, out: seq<bool>)
    ensures Pruned(p, out).ns == p.ns && Pruned(p, out).fo == p.fo
    ensures Exact(p) ==> Exact(Pruned(p, out)) && NoDup(Pruned(p, out).gates) && Truthful(p.ns, p.fo)
  {
    FilterNoDup(p.gates, DeadGates(p.fo, out, p.gates));
  }

  lemma ExactMoves(p: Part, ns: seq<Node>, fo: seq<seq<nat>>)
    requires NoDup(p.gates) && Truthful(p.ns, p.fo) ==> Truthful(ns, fo)
    ensures Exact(p) ==> Exact(p.(ns := ns, fo := fo))
  {
  }

  lemma {:induction false} FilterNone(list: seq<nat>)
    ensures Filter(list, {}) == list
  {
    if list != [] {
      FilterNone(list[1..]);
      assert list == [list[0]] + list[1..];
    }
  }

  lemma {:induction false} FilterNoDup(list: seq<nat>, del: set<nat>)
    ensures NoDup(list) ==> NoDup(Filter(list, del))
  {
    if list != [] && NoDup(list) {
      var rest := Filter(list[1..], del);
      assert forall p, q :: 0 <= p < q < |list[1..]| ==> list[1..][p] == list[p + 1] && list[1..][q] == list[q + 1];
      FilterNoDup(list[1..], del);
      forall q | 0 <= q < |rest|
        ensures rest[q] != list[0]
      {
        assert rest[q] in rest;
        var k :| 0 <= k < |list[1..]| && list[1..][k] == rest[q];
        assert list[k + 1] == rest[q];
      }
    }
  }

  /** How `rewrite_keys` ends: `FaninMissing` is the failed assertion of `rewrite_buffers`. */
  datatype Outcome = Rewritten | FaninMissing | OutputFixed

  class KeyCkt {
    const net: Netw
    const isOutput: seq<bool>
    var nodeList: seq<nat>
    var inputs: seq<nat>
    var keyInputs: seq<nat>
    var gates: seq<nat>

    constructor (n: Netw, out: seq<bool>, all: seq<nat>, ins: seq<nat>, keys: seq<nat>, gs: seq<nat>)
      ensures net == n && isOutput == out && nodeList == all && inputs == ins && keyInputs == keys && gates == gs
    {
      net, isOutput, nodeList, inputs, keyInputs, gates := n, out, all, ins, keys, gs;
    }

    ghost predicate Clean()
      reads this, net
    {
      CleanLists(net.nodes, net.fanouts, net.rank, net.vals, net.cst, isOutput, nodeList, keyInputs, gates)
    }

    lemma KeyIsNoOutput(k: nat)
      requires Clean() && k in keyInputs
      ensures k < |net.nodes| == |net.fanouts| == |isOutput| && !isOutput[k]
    {
    }

    lemma GateListed(g: nat)
      requires Clean() && g in gates
      ensures g < |net.nodes| == |net.fanouts| == |isOutput| && IsGate(net.nodes, g)
    {
    }

    /** The loop of `remove_dead_keys`; its assertion holds. */
    method FindDeadKeys() returns (del: set<nat>)
      requires Clean()
      ensures forall k :: k in del <==> k in keyInputs && Unread(net.fanouts, k)
    {
      del := {};
      for i := 0 to |keyInputs|
        invariant forall k :: k in del <==> k in keyInputs[..i] && Unread(net.fanouts, k)
      {
        var ki := keyInputs[i];
        KeyIsNoOutput(ki);
        assert keyInputs[..i + 1] == keyInputs[..i] + [ki];
        if |net.fanouts[ki]| == 0 {
          assert !isOutput[ki];
          del := del + {ki};
        }
      }
      assert keyInputs[..|keyInputs|] == keyInputs;
    }

    /** `remove_dead_keys`. */
    method RemoveDeadKeys() returns (changed: bool)
      requires Clean()
      modifies this`keyInputs, this`inputs, this`nodeList
      ensures Clean()
      ensures var dead := DeadKeys(net.fanouts, old(keyInputs));
        && keyInputs == Filter(old(keyInputs), dead) && inputs == Filter(old(inputs), dead)
        && nodeList == Filter(old(nodeList), dead)
      ensures changed <==> DeadKeys(net.fanouts, old(keyInputs)) != {}
      ensures forall k :: k in keyInputs <==> k in old(keyInputs) && !Unread(net.fanouts, k)
      ensures |nodeList| <= |old(nodeList)| && (changed ==> |nodeList| < |old(nodeList)|)
    {
      var del := FindDeadKeys();
      assert del == DeadKeys(net.fanouts, keyInputs);
      KeysGone(net.nodes, net.fanouts, net.rank, net.vals, net.cst, isOutput, nodeList, keyInputs, gates, del);
      keyInputs := DeleteFromList(keyInputs, del);
      inputs := DeleteFromList(inputs, del);
      nodeList := DeleteFromList(nodeList, del);
      changed := |del| > 0;
    }

    /** The loop of `remove_dead_gates`. */
    method FindDeadGates() returns (del: set<nat>)
      requires Clean()
      ensures forall g :: g in del <==> g in gates && DeadGate(net.fanouts, isOutput, g)
    {
      del := {};
      for i := 0 to |gates|
        invariant forall g :: g in del <==> g in gates[..i] && DeadGate(net.fanouts, isOutput, g)
      {
        var gi := gates[i];
        GateListed(gi);
        assert gates[..i + 1] == gates[..i] + [gi];
        if |net.fanouts[gi]| == 0 && !isOutput[gi] {
          del := del + {gi};
        }
      }
      assert gates[..|gates|] == gates;
    }

    /** `remove_dead_gates`. */
    method RemoveDeadGates() returns (changed: bool)
      requires Clean()
      modifies this`gates, this`nodeList
      ensures Clean()
      ensures var dead := DeadGates(net.fanouts, isOutput, old(gates));
        gates == Filter(old(gates), dead) && nodeList == Filter(old(nodeList), dead) && (changed <==> dead != {})
      ensures forall g :: g in gates ==> g !in net.cst && !DeadGate(net.fanouts, isOutput, g)
      ensures Orderly(net.nodes, net.fanouts, old(gates)) ==> Orderly(net.nodes, net.fanouts, gates)
      ensures BuffersUnread(net.nodes, net.fanouts, old(gates)) ==> BuffersUnread(net.nodes, net.fanouts, gates)
      ensures Skipped(net.nodes, net.fanouts, old(gates)) ==> Skipped(net.nodes, net.fanouts, gates)
      ensures |nodeList| <= |old(nodeList)| && (changed ==> |nodeList| < |old(nodeList)|)
    {
      var del := FindDeadGates();
      assert del == DeadGates(net.fanouts, isOutput, gates);
      if Orderly(net.nodes, net.fanouts, gates) {
        FilterOrderly(net.nodes, net.fanouts, gates, del);
      }
      GatesGone(net.nodes, net.fanouts, net.rank, net.vals, net.cst, isOutput, nodeList, keyInputs, gates, del);
      gates := DeleteFromList(gates, del);
      nodeList := DeleteFromList(nodeList, del);
      changed := |del| > 0;
    }

    /** The inner loop of `rewrite_buffers`; `ok` is false when a fanout does not have `g` as a fanin (any more). */
    method RewriteFanouts(g: nat, x: nat) returns (ok: bool)
      requires Sound(net.nodes, net.fanouts, net.rank, gates, nodeList, net.vals)
      requires g in gates && x in nodeList && x < |net.rank| && g < |net.rank| && net.rank[x] < net.rank[g]
      requires forall w :: w in net.vals ==> Bit(w, g) == Bit(w, x)
      modifies net`nodes, net`fanouts
      ensures x < |old(net.fanouts)| && (ok <==> Rewritable(old(net.nodes), old(net.fanouts), g))
      ensures ok ==> net.nodes == Rewired(old(net.nodes), old(net.fanouts)[g], g, x)
      ensures ok ==> net.fanouts == old(net.fanouts)[x := old(net.fanouts)[x] + old(net.fanouts)[g]][g := []]
      ensures ok ==> Sound(net.nodes, net.fanouts, net.rank, gates, nodeList, net.vals)
      ensures SameKinds(old(net.nodes), net.nodes)
    {
      hide Sound, SameKinds, Rewired, Rewritable, Rerouting, Feeds;
      ghost var ns0, fo0 := net.nodes, net.fanouts;
      StartRerouting(ns0, fo0, net.rank, gates, nodeList, net.vals, g, x);
      var i := 0;
      while i != |net.fanouts[g]|
        invariant |net.fanouts| == |fo0| && net.fanouts[g] == fo0[g] && 0 <= i <= |fo0[g]|
        invariant Sound(net.nodes, net.fanouts, net.rank, gates, nodeList, net.vals)
        invariant Rerouting(ns0, fo0, net.nodes, net.fanouts, g, x, i)
        decreases |fo0[g]| - i
        modifies net`nodes, net`fanouts
      {
        var h := net.fanouts[g][i];
        ReroutingStep(ns0, fo0, net.nodes, net.fanouts, net.rank, gates, nodeList, net.vals, g, x, i);
        if g !in net.nodes[h].fanins {
          return false;
        }
        net.nodes := net.nodes[h := net.nodes[h].(fanins := Replace(net.nodes[h].fanins, g, x))];
        net.fanouts := net.fanouts[x := net.fanouts[x] + [h]];
        i := i + 1;
      }
      ReroutingDone(ns0, fo0, net.nodes, net.fanouts, net.rank, gates, nodeList, net.vals, g, x);
      net.fanouts := net.fanouts[g := []];
      ok := true;
    }

    /** `rewrite_buffers`; `ok` is false when its assertion that a fanin is found fails. */
    method RewriteBuffers() returns (ok: bool)
      requires Clean() && forall g :: g in gates ==> g !in net.cst
      modifies net`nodes, net`fanouts
      ensures ok <==> BypassAll(old(net.nodes), old(net.fanouts), gates).Some?
      ensures ok ==> BypassAll(old(net.nodes), old(net.fanouts), gates) == Some(Wires(net.nodes, net.fanouts))
      ensures ok ==> Clean() && BuffersUnread(net.nodes, net.fanouts, gates)
      ensures NoDup(gates) && Truthful(old(net.nodes), old(net.fanouts)) ==>
        (ok <==> NoClash(Layout(old(net.nodes), net.rank, gates, nodeList), old(net.fanouts), |gates|))
      ensures ok && NoDup(gates) && Truthful(old(net.nodes), old(net.fanouts)) ==> Truthful(net.nodes, net.fanouts)
      ensures Orderly(old(net.nodes), old(net.fanouts), gates) ==>
        ok && Orderly(net.nodes, net.fanouts, gates) && Skipped(net.nodes, net.fanouts, gates)
      ensures SameKinds(old(net.nodes), net.nodes)
      ensures ok ==> OthersKeep(nodeList, old(net.fanouts), net.fanouts)
    {
      hide Sound, SameKinds, BypassOf, Bypass, Rewritable, Rewired, Bypassing, BypassAll, Orderly, BuffersUnread,
        Skipped;
      hide Foreseeable, NoClash, Truthful, Wired;
      ghost var ns0, fo0 := net.nodes, net.fanouts;
      ghost var l := Layout(ns0, net.rank, gates, nodeList);
      CleanIsSound(net.nodes, net.fanouts, net.rank, net.vals, net.cst, isOutput, nodeList, keyInputs, gates);
      CanForesee(ns0, fo0, net.rank, gates, nodeList);
      StartBypassing(l, fo0);
      hide CleanLists;
      var i := 0;
      while i != |gates|
        invariant 0 <= i <= |gates|
        invariant Sound(net.nodes, net.fanouts, net.rank, gates, nodeList, net.vals)
        invariant Bypassing(l, fo0, net.nodes, net.fanouts, i)
        invariant OthersKeep(nodeList, fo0, net.fanouts)
        modifies net`nodes, net`fanouts
      {
        var g := gates[i];
        BypassingStep(l, fo0, net.nodes, net.fanouts, net.vals, i);
        BypassIs(net.nodes, net.fanouts, g);
        KindsRefl(net.nodes);
        var inp := FindBypass(g);
        if inp.Some? {
          BypassValue(net.nodes, net.fanouts, net.rank, gates, nodeList, net.vals, g, inp.value);
          ghost var ns1 := net.nodes;
          ok := RewriteFanouts(g, inp.value);
          if !ok {
            KindsTrans(ns0, ns1, net.nodes);
            return;
          }
        }
        i := i + 1;
      }
      BypassingDone(l, fo0, net.nodes, net.fanouts);
      SoundIsClean(ns0, net.nodes, net.fanouts, net.rank, net.vals, net.cst, isOutput, nodeList, keyInputs, gates);
      ok := true;
    }

    /** Whether gate `g` is a buffer or the second of two inverters; the assertions on fanin counts hold. */
    method FindBypass(g: nat) returns (inp: Option<nat>)
      requires Sound(net.nodes, net.fanouts, net.rank, gates, nodeList, net.vals) && g in gates
      ensures inp == BypassOf(net.nodes, g)
    {
      var ns := net.nodes;
      assert Ordinary(ns, g);
      if ns[g].func == Buf {
        assert |ns[g].fanins| == 1;
        inp := Some(ns[g].fanins[0]);
      } else if ns[g].func == Not {
        assert |ns[g].fanins| == 1;
        var f := ns[g].fanins[0];
        assert Feeds(ns, f, g);
        if ns[f].Gate? && ns[f].func == Not {
          assert Ordinary(ns, f);
          assert |ns[f].fanins| == 1;
          inp := Some(ns[f].fanins[0]);
        } else {
          inp := None;
        }
      } else {
        inp := None;
      }
    }

    /** What the cleanup works on. */
    ghost function Here(): Part
      reads this, net
    {
      Part(net.nodes, net.fanouts, nodeList, inputs, keyInputs, gates)
    }

    /** `remove_dead_keys` and `remove_dead_gates`, as called twice in each round. */
    method RemoveDead() returns (changed: bool)
      requires Clean()
      modifies this`keyInputs, this`inputs, this`nodeList, this`gates
      ensures Clean() && Here() == Pruned(old(Here()), isOutput)
      ensures |nodeList| <= |old(nodeList)| && (changed <==> |nodeList| < |old(nodeList)|)
      ensures forall g :: g in gates ==> g !in net.cst && !DeadGate(net.fanouts, isOutput, g)
      ensures forall k :: k in keyInputs <==> k in old(keyInputs) && !Unread(net.fanouts, k)
      ensures Orderly(net.nodes, net.fanouts, old(gates)) ==> Orderly(net.nodes, net.fanouts, gates)
      ensures BuffersUnread(net.nodes, net.fanouts, old(gates)) ==> BuffersUnread(net.nodes, net.fanouts, gates)
      ensures Skipped(net.nodes, net.fanouts, old(gates)) ==> Skipped(net.nodes, net.fanouts, gates)
    {
      hide DeadKeys, DeadGates, Orderly, Skipped, BuffersUnread, Filter, CleanLists, Unread;
      ghost var list0 := nodeList;
      var c1 := RemoveDeadKeys();
      FilterNone(list0);
      FilterNone(nodeList);
      var c2 := RemoveDeadGates();
      changed := c1 || c2;
    }

    /** One round of `_cleanup`. */
    method CleanupRound() returns (ok: bool, changed: bool, ghost dk: set<nat>, ghost dg: set<nat>)
      requires Clean()
      modifies this`keyInputs, this`inputs, this`nodeList, this`gates, net`nodes, net`fanouts
      ensures SameKinds(old(net.nodes), net.nodes)
      ensures ok ==> Clean()
      ensures AfterRound(old(Here()), isOutput) == if ok then Some(Here()) else None
      ensures ok ==> Thinned(old(Here()), Here(), isOutput, dk, dg)
      ensures ok ==> OthersKeep(old(nodeList), old(net.fanouts), net.fanouts)
      ensures ok ==> |nodeList| <= |old(nodeList)| && (changed <==> |nodeList| < |old(nodeList)|)
      ensures ok ==> BuffersUnread(net.nodes, net.fanouts, gates)
      ensures ok ==> forall g :: g in gates ==> g !in net.cst && !DeadGate(net.fanouts, isOutput, g)
      ensures ok ==> forall k :: k in keyInputs ==>
        k in old(keyInputs) && !Unread(net.fanouts, k) && !Unread(old(net.fanouts), k)
      ensures Orderly(old(net.nodes), old(net.fanouts), old(gates)) ==>
        ok && Orderly(net.nodes, net.fanouts, gates) && Skipped(net.nodes, net.fanouts, gates)
      ensures Exact(old(Here())) ==> (ok <==> RoundHolds(old(Here()), net.rank, isOutput))
      ensures Exact(old(Here())) && ok ==> Exact(Here())
    {
      hide BypassAll, Orderly, Skipped, BuffersUnread, CleanLists, SameKinds, Pruned, NoClash, Truthful, Exact, Unread;
      hide Thinned, OthersKeep, DeadGate;
      dk, dg := {}, {};
      ghost var p0 := Here();
      var c1 := RemoveDead();
      PrunedParts(p0, isOutput);
      ghost var p1 := Here();
      ok := RewriteBuffers();
      if !ok {
        changed := c1;
        return;
      }
      ghost var p2 := Here();
      ExactMoves(p1, net.nodes, net.fanouts);
      var c2 := RemoveDead();
      PrunedParts(p2, isOutput);
      dk, dg := RoundThins(p0, p1, p2, Here(), isOutput);
      changed := c1 || c2;
    }

    /** `_cleanup`: repeat until neither dead keys nor dead gates were found. */
    method Cleanup() returns (ok: bool)
      requires Clean()
      modifies this`keyInputs, this`inputs, this`nodeList, this`gates, net`nodes, net`fanouts
      ensures ok ==> Clean() && OnlyDeadGone(old(Here()), Here(), isOutput)
      ensures AfterRounds(old(Here()), isOutput) == if ok then Some(Here()) else None
      ensures ok ==> forall g :: g in gates ==> g !in net.cst && !DeadGate(net.fanouts, isOutput, g)
      ensures ok ==> forall k :: k in keyInputs ==> k in old(keyInputs) && !Unread(net.fanouts, k)
      ensures ok ==> forall k :: k in keyInputs ==> !Unread(old(net.fanouts), k)
      ensures Orderly(old(net.nodes), old(net.fanouts), old(gates)) ==>
        ok && Orderly(net.nodes, net.fanouts, gates) && Skipped(net.nodes, net.fanouts, gates)
      ensures Exact(old(Here())) ==> (ok <==> AllRoundsHold(old(Here()), net.rank, isOutput))
      ensures ok ==> BuffersUnread(net.nodes, net.fanouts, gates)
      ensures SameKinds(old(net.nodes), net.nodes)
    {
      hide Orderly, Skipped, BuffersUnread, CleanLists, SameKinds, Exact, RoundHolds, AfterRound, AllRoundsHold, Unread;
      hide Thinned, OthersKeep, OnlyDeadGone, AfterRounds, DeadGate;
      ghost var p0, keys0, fo0 := Here(), keyInputs, net.fanouts;
      ghost var orderly := Orderly(p0.ns, p0.fo, gates);
      KindsRefl(p0.ns);
      ThinnedNone(p0, isOutput);
      ghost var dk: set<nat>, dg: set<nat> := {}, {};
      var changed := true;
      while changed
        invariant Clean() && SameKinds(p0.ns, net.nodes)
        invariant orderly ==> Orderly(net.nodes, net.fanouts, gates)
        invariant !changed ==> BuffersUnread(net.nodes, net.fanouts, gates)
        invariant !changed && orderly ==> Skipped(net.nodes, net.fanouts, gates)
        invariant forall k :: k in keyInputs ==> k in keys0
        invariant (changed && net.fanouts == fo0) || forall k :: k in keyInputs ==> !Unread(fo0, k)
        invariant !changed ==> forall g :: g in gates ==> g !in net.cst && !DeadGate(net.fanouts, isOutput, g)
        invariant Thinned(p0, Here(), isOutput, dk, dg)
        invariant AfterRounds(p0, isOutput) == if changed then AfterRounds(Here(), isOutput) else Some(Here())
        invariant !changed ==> forall k :: k in keyInputs ==> !Unread(net.fanouts, k)
        invariant Exact(p0) ==> Exact(Here())
        invariant Exact(p0) ==>
          (AllRoundsHold(p0, net.rank, isOutput) <==> (changed ==> AllRoundsHold(Here(), net.rank, isOutput)))
        decreases |nodeList|, changed
      {
        ghost var p1 := Here();
        RoundsStep(p1, net.rank, isOutput);
        ghost var dk', dg';
        ok, changed, dk', dg' := CleanupRound();
        KindsTrans(p0.ns, p1.ns, net.nodes);
        AllRoundsStep(p1, isOutput);
        if !ok {
          return;
        }
        ThinnedTrans(p0, p1, Here(), isOutput, dk, dg, dk', dg');
        dk, dg := dk + dk', dg + dg';
      }
      AllDeadGone(p0, Here(), isOutput, dk, dg);
      ok := true;
    }

    /**
     `rewrite_keys`: fixes the given key bits.  Whatever values satisfy the gates that
     are left and agree with a valuation of the original netlist, having these key
     bits, on the circuit inputs and the remaining keys, also agree on every output.
     The model stops with `OutputFixed` where propagation gives an output a fixed value;
     otherwise the run completes exactly if the assertion holds in every round, which is
     told from `mid`, the netlist after propagation.
     */
    method RewriteKeys(keys: seq<Option<bool>>) returns (r: Outcome, ghost mid: Part)
      requires net.Holds({}) && net.cst == map[] && |keys| == |keyInputs| && NoDup(keyInputs)
      requires Complete(net.nodes, isOutput, nodeList, keyInputs, gates)
      modifies this, net
      ensures r.OutputFixed? <==> Reached(net.cst, isOutput)
      ensures OutputsVary(FixKeys(old(net.vals), old(keyInputs), keys, |keys|), isOutput) ==> !r.OutputFixed?
      ensures var ok := r.Rewritten?;
        ok ==> Clean() && SameKinds(old(net.nodes), net.nodes) && BuffersUnread(net.nodes, net.fanouts, gates)
      ensures mid.list == old(nodeList) && mid.keys == old(keyInputs) && mid.gates == old(gates)
      ensures mid.ins == old(inputs)
      ensures !r.OutputFixed? ==> AfterRounds(mid, isOutput) == if r.Rewritten? then Some(Here()) else None
      ensures r.Rewritten? ==> OnlyDeadGone(mid, Here(), isOutput)
      ensures SameKinds(old(net.nodes), mid.ns) && NoNewFeeds(old(net.nodes), mid.ns)
      ensures Mirrored(mid.ns, mid.fo, net.cst) && CutOff(mid.ns, mid.fo, net.cst, {})
      ensures NoDup(old(gates)) && !r.OutputFixed? ==>
        (r.Rewritten? <==> AllRoundsHold(mid, net.rank, isOutput))
      ensures InOrder(old(net.nodes), old(gates)) && !r.OutputFixed? ==>
        r.Rewritten? && Skipped(net.nodes, net.fanouts, gates)
      ensures r.Rewritten? ==> forall i :: 0 <= i < |keys| && keys[i].Some? ==> old(keyInputs)[i] !in keyInputs
      ensures r.Rewritten? ==>
        SameOutputs(net.nodes, gates, nodeList, isOutput, FixKeys(old(net.vals), old(keyInputs), keys, |keys|))
    {
      hide AfterRounds, OnlyDeadGone, AllRoundsHold, BuffersUnread, Skipped;
      ghost var ns0, vals0, keys0 := net.nodes, net.vals, keyInputs;
      PropagateKeys(keys);
      VaryingNotReached(net.nodes, net.fanouts, net.rank, net.top, net.vals, net.cst, isOutput);
      var fixed := FindFixedOutput();
      mid := Here();
      FixedUnread(net.nodes, net.fanouts, net.rank, net.top, net.vals, net.cst);
      if fixed {
        return OutputFixed, mid;
      }
      PropagatedIsClean(ns0, net.nodes, net.fanouts, net.rank, net.top, net.vals, net.cst, isOutput, nodeList,
        keyInputs, gates);
      ghost var ns1 := net.nodes;
      PropagatedOrderly(ns0, net.nodes, net.fanouts, net.rank, net.top, net.vals, net.cst, gates);
      var ok := Cleanup();
      r := if ok then Rewritten else FaninMissing;
      if ok {
        KindsTrans(ns0, ns1, net.nodes);
        forall w, w', o: nat |
          w in net.vals && SatisfiesGates(net.nodes, w', gates) && AgreeOnInputs(net.nodes, nodeList, w, w')
          && o < |isOutput| && isOutput[o]
          ensures Bit(w, o) == Bit(w', o)
        {
          LiveAgree(net.nodes, net.fanouts, net.rank, net.vals, net.cst, isOutput, nodeList, keyInputs, gates, w, w',
            o);
        }
      }
    }

    method FindFixedOutput() returns (fixed: bool)
      ensures fixed <==> Reached(net.cst, isOutput)
    {
      fixed := exists o | 0 <= o < |isOutput| :: isOutput[o] && o in net.cst;
    }

    /** The loop of `rewrite_keys` over the known bits. */
    method PropagateKeys(keys: seq<Option<bool>>)
      requires net.Holds({}) && net.cst == map[] && |keys| == |keyInputs| && NoDup(keyInputs)
      requires forall k :: k in keyInputs ==> k < |net.nodes| && !net.nodes[k].Gate?
      modifies net
      ensures net.Holds({}) && SameKinds(old(net.nodes), net.nodes) && NoNewFeeds(old(net.nodes), net.nodes)
      ensures net.vals == FixKeys(old(net.vals), keyInputs, keys, |keys|)
      ensures forall i :: 0 <= i < |keys| && keys[i].Some? ==> keyInputs[i] in net.cst
    {
      ghost var ns0, vals0 := net.nodes, net.vals;
      KindsRefl(ns0);
      for i := 0 to |keys|
        invariant net.Holds({}) && SameKinds(ns0, net.nodes) && NoNewFeeds(ns0, net.nodes)
        invariant net.vals == FixKeys(vals0, keyInputs, keys, i)
        invariant forall j :: 0 <= j < i && keys[j].Some? ==> keyInputs[j] in net.cst
        invariant forall c :: c in net.cst ==> IsGate(net.nodes, c) || exists j :: 0 <= j < i && keyInputs[j] == c
      {
        ghost var ns1, vals1 := net.nodes, net.vals;
        if keys[i].Some? {
          assert keyInputs[i] in keyInputs;
          net.PropagateInput(keyInputs[i], keys[i].value);
        }
        FixOneMore(vals0, vals1, net.vals, keyInputs, keys, i);
      }
    }
  }

  /** The valuations with the first `n` known key bits. */
  ghost function FixKeys(vals: iset<Model>, ks: seq<nat>, keys: seq<Option<bool>>, n: nat): iset<Model>
    requires n <= |keys| == |ks|
  {
    iset w | w in vals && forall i :: 0 <= i < n && keys[i].Some? ==> Bit(w, ks[i]) == keys[i].value
  }

  lemma FixOneMore(
      vals0: iset<Model>, vals: iset<Model>, vals': iset<Model>, ks: seq<nat>, keys: seq<Option<bool>>, i: nat)
    requires i < |keys| == |ks| && vals == FixKeys(vals0, ks, keys, i)
    requires vals' == if keys[i].Some? then WithBit(vals, ks[i], keys[i].value) else vals
    ensures vals' == FixKeys(vals0, ks, keys, i + 1)
  {
  }

  /** Values that satisfy the gates and agree with one of `vals` on the listed inputs agree with it on the outputs. */
  ghost predicate SameOutputs(ns: seq<Node>, gates: seq<nat>, list: seq<nat>, out: seq<bool>, vals: iset<Model>) {
    forall w, w', o: nat ::
      w in vals && SatisfiesGates(ns, w', gates) && AgreeOnInputs(ns, list, w, w') && o < |out| && out[o] ==>
      Bit(w, o) == Bit(w', o)
  }

  /** Some output has a fixed value. */
  predicate Reached(cst: map<nat, bool>, out: seq<bool>) {
    exists o :: 0 <= o < |out| && out[o] && o in cst
  }

  /** No output has the same value in all of these valuations. */
  ghost predicate OutputsVary(vals: iset<Model>, out: seq<bool>) {
    forall o :: 0 <= o < |out| && out[o] ==> exists w, w' :: w in vals && w' in vals && Bit(w, o) != Bit(w', o)
  }

  /** Everything is listed, and no key input is an output. */
  ghost predicate Complete(ns: seq<Node>, out: seq<bool>, list: seq<nat>, keys: seq<nat>, gates: seq<nat>) {
    && Lists(ns, out, list, keys) && (forall a: nat :: a in list <==> a < |ns|)
    && (forall g: nat :: g in gates <==> IsGate(ns, g))
  }

  ghost predicate SatisfiesGates(ns: seq<Node>, w: Model, gates: seq<nat>) {
    forall g :: g in gates ==> GateOk(ns, w, g)
  }

  ghost predicate AgreeOnInputs(ns: seq<Node>, list: seq<nat>, w: Model, w': Model) {
    forall a :: a in list && a < |ns| && !ns[a].Gate? ==> Bit(w, a) == Bit(w', a)
  }

  /** Values that satisfy the gates in use are determined by the inputs in use. */
  lemma {:induction false} LiveAgree(
      ns: seq<Node>, fo: seq<seq<nat>>, rank: seq<nat>, vals: iset<Model>, cst: map<nat, bool>, out: seq<bool>,
      list: seq<nat>, keys: seq<nat>, gates: seq<nat>, w: Model, w': Model, a: nat)
    requires CleanLists(ns, fo, rank, vals, cst, out, list, keys, gates) && forall g :: g in gates ==> g !in cst
    requires w in vals && SatisfiesGates(ns, w', gates) && AgreeOnInputs(ns, list, w, w')
    requires a < |ns| && (a in list || out[a])
    ensures Bit(w, a) == Bit(w', a)
    decreases rank[a]
  {
    if IsGate(ns, a) {
      assert a in gates;
      var f := ns[a].fanins;
      forall k | 0 <= k < |f|
        ensures Vals(w, f)[k] == Vals(w', f)[k]
      {
        assert Feeds(ns, f[k], a);
        LiveAgree(ns, fo, rank, vals, cst, out, list, keys, gates, w, w', f[k]);
      }
      assert Vals(w, f) == Vals(w', f);
      assert GateOk(ns, w, a) && GateOk(ns, w', a);
    }
  }

  lemma FixedUnread(
      ns: seq<Node>, fo: seq<seq<nat>>, rank: seq<nat>, top: nat, vals: iset<Model>, cst: map<nat, bool>)
    requires Inv(ns, fo, vals, cst, rank, top, {})
    ensures Mirrored(ns, fo, cst) && CutOff(ns, fo, cst, {})
    ensures forall c :: c in cst ==> Unread(fo, c)
  {
  }

  /** After the propagation everything is in order for the cleanup. */
  lemma PropagatedIsClean(
      ns0: seq<Node>, ns: seq<Node>, fo: seq<seq<nat>>, rank: seq<nat>, top: nat, vals: iset<Model>,
      cst: map<nat, bool>, out: seq<bool>, list: seq<nat>, keys: seq<nat>, gates: seq<nat>)
    requires Inv(ns, fo, vals, cst, rank, top, {}) && SameKinds(ns0, ns)
    requires Complete(ns0, out, list, keys, gates) && !Reached(cst, out)
    ensures CleanLists(ns, fo, rank, vals, cst, out, list, keys, gates)
  {
    forall a: nat, g: nat | Feeds(ns, a, g)
      ensures a < |ns| && rank[a] < rank[g] && g in fo[a]
    {
      if a !in cst {
        assert MirrorAt(ns, fo, a);
      }
    }
    forall a: nat, g: nat | a < |fo| && g in fo[a]
      ensures IsGate(ns, g)
    {
      if a !in cst {
        assert MirrorAt(ns, fo, a);
        assert Feeds(ns, a, g);
      }
    }
  }

  /** Propagation does not reach outputs that can still have both values. */
  lemma VaryingNotReached(
      ns: seq<Node>, fo: seq<seq<nat>>, rank: seq<nat>, top: nat, vals: iset<Model>, cst: map<nat, bool>,
      out: seq<bool>)
    requires Inv(ns, fo, vals, cst, rank, top, {})
    ensures OutputsVary(vals, out) ==> !Reached(cst, out)
  {
    if OutputsVary(vals, out) {
      forall o | 0 <= o < |out| && out[o]
        ensures o !in cst
      {
        var w, w' :| w in vals && w' in vals && Bit(w, o) != Bit(w', o);
        FixedBit(ns, fo, rank, top, vals, cst, w, o);
        FixedBit(ns, fo, rank, top, vals, cst, w', o);
      }
    }
  }

  lemma FixedBit(
      ns: seq<Node>, fo: seq<seq<nat>>, rank: seq<nat>, top: nat, vals: iset<Model>, cst: map<nat, bool>, w: Model,
      c: nat)
    requires Inv(ns, fo, vals, cst, rank, top, {}) && w in vals
    ensures c in cst ==> Bit(w, c) == cst[c]
  {
  }

  ghost predicate NoNewFeeds(ns: seq<Node>, ns': seq<Node>) {
    forall a: nat, g: nat :: Feeds(ns', a, g) ==> Feeds(ns, a, g)
  }

  /** Propagation only takes fanins away, so gates that came in order still do. */
  lemma PropagatedOrderly(
      ns0: seq<Node>, ns: seq<Node>, fo: seq<seq<nat>>, rank: seq<nat>, top: nat, vals: iset<Model>,
      cst: map<nat, bool>, gates: seq<nat>)
    requires Inv(ns, fo, vals, cst, rank, top, {}) && NoNewFeeds(ns0, ns) && forall g :: g in gates ==> g < |ns|
    ensures Truthful(ns, fo) && (InOrder(ns0, gates) ==> Orderly(ns, fo, gates))
  {
    forall a: nat | a < |ns|
      ensures NoDup(fo[a]) && forall h: nat :: h in fo[a] ==> Feeds(ns, a, h)
    {
      if a !in cst {
        assert MirrorAt(ns, fo, a);
      }
    }
  }

  lemma CanForesee(ns: seq<Node>, fo: seq<seq<nat>>, rank: seq<nat>, gates: seq<nat>, list: seq<nat>)
    requires Wired(ns, fo, rank, gates, list)
    ensures Foreseeable(Layout(ns, rank, gates, list), fo) <==> NoDup(gates) && Truthful(ns, fo)
  {
  }

  lemma CleanIsSound(
      ns: seq<Node>, fo: seq<seq<nat>>, rank: seq<nat>, vals: iset<Model>, cst: map<nat, bool>, out: seq<bool>,
      list: seq<nat>, keys: seq<nat>, gates: seq<nat>)
    requires CleanLists(ns, fo, rank, vals, cst, out, list, keys, gates) && forall g :: g in gates ==> g !in cst
    ensures Sound(ns, fo, rank, gates, list, vals) && Wired(ns, fo, rank, gates, list)
  {
  }

  lemma SoundIsClean(
      ns0: seq<Node>, ns: seq<Node>, fo: seq<seq<nat>>, rank: seq<nat>, vals: iset<Model>, cst: map<nat, bool>,
      out: seq<bool>, list: seq<nat>, keys: seq<nat>, gates: seq<nat>)
    requires Lists(ns0, out, list, keys) && SameKinds(ns0, ns)
    requires Sound(ns, fo, rank, gates, list, vals) && forall g :: g in gates ==> g !in cst
    ensures CleanLists(ns, fo, rank, vals, cst, out, list, keys, gates)
  {
  }
}
