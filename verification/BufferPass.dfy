/**
 `ckt_t::rewrite_buffers`: readers of a buffer, or of the second of two inverters,
 read its input instead.  One visit of a gate, the pass over all gates, and the exact
 condition under which its assertion, that the replaced fanin is found, holds.
 */
module BufferPass {
  import opened Cnf
  import opened Netlist
  import opened Rewriting
  import opened GateAlgebra
  import opened ConstProp

  // ----- the part of the netlist that is in use -----

  /** Fanins of listed gates are listed, come earlier in rank, and know the gate as a fanout. */
  ghost predicate Wired(ns: seq<Node>, fo: seq<seq<nat>>, rank: seq<nat>, gates: seq<nat>, list: seq<nat>) {
    && |fo| == |rank| == |ns|
    && (forall a :: a in list ==> a < |ns|)
    && (forall g :: g in gates ==> g in list && IsGate(ns, g))
    && (forall a: nat, g: nat :: g in gates && Feeds(ns, a, g) ==>
          a in list && a < |ns| && rank[a] < rank[g] && g in fo[a])
    && (forall a: nat, g: nat :: a < |fo| && g in fo[a] ==> IsGate(ns, g))
    && (forall a: nat :: a in list && IsGate(ns, a) ==> a in gates)
  }

  ghost predicate Ordinary(ns: seq<Node>, g: nat) {
    IsGate(ns, g) && PropArity(ns[g].func, |ns[g].fanins|)
  }

  predicate OneFanin(ns: seq<Node>, g: nat, f: Func) {
    IsGate(ns, g) && ns[g].func == f && |ns[g].fanins| == 1
  }

  /** A buffer, or the second of two inverters. */
  predicate Redundant(ns: seq<Node>, g: nat) {
    OneFanin(ns, g, Buf) || (OneFanin(ns, g, Not) && OneFanin(ns, ns[g].fanins[0], Not))
  }

  /** What `rewrite_buffers` replaces gate `g` by, if anything: the input of a buffer or of a double inverter. */
  function BypassOf(ns: seq<Node>, g: nat): (r: Option<nat>)
    ensures r.Some? <==> Redundant(ns, g)
  {
    if !IsGate(ns, g) || |ns[g].fanins| != 1 then None
    else
      var f := ns[g].fanins[0];
      if ns[g].func == Buf then Some(f)
      else if ns[g].func == Not && IsGate(ns, f) && ns[f].func == Not && |ns[f].fanins| == 1 then Some(ns[f].fanins[0])
      else None
  }

  /** The replacement is in use and comes earlier, and has the same value. */
  lemma BypassValue(
      ns: seq<Node>, fo: seq<seq<nat>>, rank: seq<nat>, gates: seq<nat>, list: seq<nat>, vals: iset<Model>, g: nat,
      x: nat)
    requires Sound(ns, fo, rank, gates, list, vals) && g in gates && BypassOf(ns, g) == Some(x)
    ensures x in list && x < |rank| && g < |rank| && rank[x] < rank[g]
    ensures forall w :: w in vals ==> Bit(w, g) == Bit(w, x)
  {
    var f := ns[g].fanins;
    assert f[0] in f && Feeds(ns, f[0], g);
    if ns[g].func == Not {
      var h := f[0];
      var e := ns[h].fanins;
      assert e[0] in e && Feeds(ns, e[0], h);
    }
    forall w | w in vals ensures Bit(w, g) == Bit(w, x) {
      assert GateOk(ns, w, g);
      assert Vals(w, f)[0] == Bit(w, f[0]);
      if ns[g].func == Not {
        var h := f[0];
        assert GateOk(ns, w, h);
        assert Vals(w, ns[h].fanins)[0] == Bit(w, ns[h].fanins[0]);
      }
    }
  }

  // ----- replacing a fanin -----

  /** `rewrite_input`: every occurrence of `old` becomes `new_`. */
  function Replace(s: seq<nat>, old_: nat, new_: nat): (r: seq<nat>)
    ensures |r| == |s|
    ensures forall i :: 0 <= i < |s| ==> r[i] == if s[i] == old_ then new_ else s[i]
  {
    seq(|s|, i requires 0 <= i < |s| => if s[i] == old_ then new_ else s[i])
  }

  lemma ReplaceMembers(s: seq<nat>, old_: nat, new_: nat)
    requires old_ != new_
    ensures forall y :: y in Replace(s, old_, new_) <==> (y in s && y != old_) || (y == new_ && old_ in s)
  {
    var r := Replace(s, old_, new_);
    forall y
      ensures y in r <==> (y in s && y != old_) || (y == new_ && old_ in s)
    {
      if y in r {
        var i :| 0 <= i < |r| && r[i] == y;
        assert s[i] in s;
      }
      if y in s && y != old_ {
        var i :| 0 <= i < |s| && s[i] == y;
        assert r[i] == y;
      }
      if y == new_ && old_ in s {
        var i :| 0 <= i < |s| && s[i] == old_;
        assert r[i] == y;
      }
    }
  }

  lemma ReplaceVals(s: seq<nat>, old_: nat, new_: nat, w: Model)
    requires Bit(w, old_) == Bit(w, new_)
    ensures Vals(w, Replace(s, old_, new_)) == Vals(w, s)
  {
  }

  /** `rewrite_buffers` at fanout `h` of gate `g`. */
  lemma RewireOne(
      ns: seq<Node>, fo: seq<seq<nat>>, rank: seq<nat>, gates: seq<nat>, list: seq<nat>, vals: iset<Model>, g: nat,
      x: nat, h: nat)
    requires Wired(ns, fo, rank, gates, list) && x in list && g < |ns| && x < |ns| && rank[x] < rank[g]
    requires Feeds(ns, g, h) && forall w :: w in vals ==> Bit(w, g) == Bit(w, x)
    requires forall e, w :: e in gates && w in vals ==> GateOk(ns, w, e)
    ensures var ns' := ns[h := ns[h].(fanins := Replace(ns[h].fanins, g, x))]; var fo' := fo[x := fo[x] + [h]];
      && Wired(ns', fo', rank, gates, list)
      && (forall e, w :: e in gates && w in vals ==> GateOk(ns', w, e))
      && !Feeds(ns', g, h) && fo'[g] == fo[g] && (forall e: nat :: e != h ==> (Feeds(ns', g, e) <==> Feeds(ns, g, e)))
      && (forall a: nat :: a < |ns| ==> ns'[a].Gate? == ns[a].Gate?)
  {
    var ns' := ns[h := ns[h].(fanins := Replace(ns[h].fanins, g, x))];
    var fo' := fo[x := fo[x] + [h]];
    ReplaceMembers(ns[h].fanins, g, x);
    forall e, w | e in gates && w in vals
      ensures GateOk(ns', w, e)
    {
      assert GateOk(ns, w, e);
      if e == h {
        ReplaceVals(ns[h].fanins, g, x, w);
      }
    }
    forall a: nat, e: nat | e in gates && Feeds(ns', a, e)
      ensures a in list && a < |ns| && rank[a] < rank[e] && e in fo'[a]
    {
      if e == h {
        assert Feeds(ns, g, e);
        assert a == x || Feeds(ns, a, e);
      } else {
        assert Feeds(ns, a, e);
      }
    }
    forall a: nat, e: nat | a < |fo'| && e in fo'[a]
      ensures IsGate(ns', e)
    {
      assert e in fo[a] || e == h;
      assert IsGate(ns, e);
    }
  }

  // ----- what rewrite_buffers makes of the wires -----

  datatype Wires = Wires(ns: seq<Node>, fo: seq<seq<nat>>)

  /** Every gate in the fanout list of `g` reads `g`, and is there once: then `rewrite_input` always finds `g`. */
  ghost predicate Rewritable(ns: seq<Node>, fo: seq<seq<nat>>, g: nat) {
    g < |fo| && NoDup(fo[g]) && forall h :: h in fo[g] ==> Feeds(ns, g, h)
  }

  /** The gates in `fs` read `y` in place of `x`. */
  function Rewired(ns: seq<Node>, fs: seq<nat>, x: nat, y: nat): (r: seq<Node>)
    ensures |r| == |ns|
  {
    seq(|ns|, a requires 0 <= a < |ns| =>
      if a in fs && ns[a].Gate? then ns[a].(fanins := Replace(ns[a].fanins, x, y)) else ns[a])
  }

  /** `rewrite_buffers` at gate `g`; `None` where its assertion fails. */
  ghost function Bypass(ns: seq<Node>, fo: seq<seq<nat>>, g: nat): Option<Wires> {
    match BypassOf(ns, g)
    case None => Some(Wires(ns, fo))
    case Some(x) =>
      if x < |fo| && Rewritable(ns, fo, g) then Some(Wires(Rewired(ns, fo[g], g, x), fo[x := fo[x] + fo[g]][g := []]))
      else None
  }

  /** `rewrite_buffers` over the gates `gs` in turn. */
  ghost function BypassAll(ns: seq<Node>, fo: seq<seq<nat>>, gs: seq<nat>): Option<Wires> {
    if gs == [] then Some(Wires(ns, fo))
    else
      match BypassAll(ns, fo, gs[..|gs| - 1])
      case None => None
      case Some(w) => Bypass(w.ns, w.fo, gs[|gs| - 1])
  }

  lemma BypassAllStep(ns: seq<Node>, fo: seq<seq<nat>>, gs: seq<nat>, i: nat)
    requires i < |gs|
    ensures BypassAll(ns, fo, gs[..i]).None? ==> BypassAll(ns, fo, gs[..i + 1]).None?
    ensures var w := BypassAll(ns, fo, gs[..i]);
      w.Some? ==> BypassAll(ns, fo, gs[..i + 1]) == Bypass(w.value.ns, w.value.fo, gs[i])
  {
    hide Bypass;
    assert gs[..i + 1][..i] == gs[..i];
  }

  /** Once the assertion has failed, nothing comes after it. */
  lemma {:induction false} BypassAllFails(ns: seq<Node>, fo: seq<seq<nat>>, gs: seq<nat>, i: nat)
    requires i <= |gs| && BypassAll(ns, fo, gs[..i]).None?
    ensures BypassAll(ns, fo, gs).None?
    decreases |gs| - i
  {
    if i < |gs| {
      BypassAllStep(ns, fo, gs, i);
      BypassAllFails(ns, fo, gs, i + 1);
    } else {
      assert gs[..i] == gs;
    }
  }

  lemma NothingRewired(ns: seq<Node>, g: nat, x: nat)
    ensures Rewired(ns, [], g, x) == ns
  {
  }

  /** One more gate of a fanout list is rerouted. */
  lemma RerouteStep(ns0: seq<Node>, ns: seq<Node>, fs: seq<nat>, i: nat, g: nat, x: nat)
    requires i < |fs| && ns == Rewired(ns0, fs[..i], g, x) && x != g
    requires NoDup(fs[..i]) && forall j :: 0 <= j < i ==> Feeds(ns0, g, fs[j])
    ensures Feeds(ns, g, fs[i]) <==> Feeds(ns0, g, fs[i]) && fs[i] !in fs[..i]
    ensures Feeds(ns, g, fs[i]) ==> NoDup(fs[..i + 1])
    ensures Feeds(ns, g, fs[i]) ==>
      ns[fs[i] := ns[fs[i]].(fanins := Replace(ns[fs[i]].fanins, g, x))] == Rewired(ns0, fs[..i + 1], g, x)
  {
    var h := fs[i];
    assert fs[..i + 1] == fs[..i] + [h];
    if h < |ns0| && ns0[h].Gate? {
      ReplaceMembers(ns0[h].fanins, g, x);
    }
  }

  /** No gate is listed as a fanout of `a`. */
  predicate Unread(fo: seq<seq<nat>>, a: nat) {
    a < |fo| && fo[a] == []
  }

  /** All listed gates hold, and the lists fit together. */
  ghost predicate Sound(
    ns: seq<Node>, fo: seq<seq<nat>>, rank: seq<nat>, gates: seq<nat>, list: seq<nat>, vals: iset<Model>)
  {
    && Wired(ns, fo, rank, gates, list) && (forall e :: e in gates ==> Ordinary(ns, e))
    && (forall e, w :: e in gates && w in vals ==> GateOk(ns, w, e))
  }

  // ----- gates that come in order -----

  /** No gate of the list reads itself or a later one. */
  ghost predicate InOrder(ns: seq<Node>, gs: seq<nat>) {
    forall p, q :: 0 <= p <= q < |gs| ==> !Feeds(ns, gs[q], gs[p])
  }

  /** Gates in fanout lists do read the node. */
  ghost predicate Truthful(ns: seq<Node>, fo: seq<seq<nat>>) {
    forall a: nat, h: nat :: a < |fo| && h in fo[a] ==> Feeds(ns, a, h)
  }

  /** Nobody reads a gate of the list that can be bypassed. */
  ghost predicate Skipped(ns: seq<Node>, fo: seq<seq<nat>>, gs: seq<nat>) {
    forall g :: g in gs && Redundant(ns, g) ==> Unread(fo, g)
  }

  /** Nobody reads a buffer of the list. */
  ghost predicate BuffersUnread(ns: seq<Node>, fo: seq<seq<nat>>, gs: seq<nat>) {
    forall g :: g in gs && IsGate(ns, g) && ns[g].func == Buf ==> Unread(fo, g)
  }

  /** No fanout list of the listed gates names a gate twice. */
  ghost predicate Singly(fo: seq<seq<nat>>, gs: seq<nat>) {
    forall g :: g in gs ==> g < |fo| && NoDup(fo[g])
  }

  /** Someone reads what a listed gate is replaced by. */
  lemma BypassRead(
      ns: seq<Node>, fo: seq<seq<nat>>, rank: seq<nat>, gates: seq<nat>, list: seq<nat>, g: nat, x: nat)
    requires Wired(ns, fo, rank, gates, list) && g in gates && BypassOf(ns, g) == Some(x)
    ensures x < |fo| && fo[x] != [] && x != g && g < |fo|
    ensures Feeds(ns, x, g) || exists m: nat :: m in gates && Feeds(ns, x, m) && Feeds(ns, m, g)
  {
    var f := ns[g].fanins[0];
    assert f in ns[g].fanins && Feeds(ns, f, g);
    if ns[g].func != Buf {
      assert ns[f].fanins[0] in ns[f].fanins && Feeds(ns, ns[f].fanins[0], f);
    }
  }

  /** What one bypass does to the functions and fanouts. */
  lemma BypassShape(ns: seq<Node>, fo: seq<seq<nat>>, g: nat)
    requires |fo| == |ns| && Bypass(ns, fo, g).Some?
    ensures var t := Bypass(ns, fo, g).value;
      && |t.ns| == |ns| == |t.fo| && (forall a: nat :: IsGate(t.ns, a) <==> IsGate(ns, a))
      && (forall a: nat :: IsGate(ns, a) ==> t.ns[a].func == ns[a].func && |t.ns[a].fanins| == |ns[a].fanins|)
      && (BypassOf(ns, g).None? ==> t == Wires(ns, fo))
      && (forall x :: BypassOf(ns, g) == Some(x) ==> x < |fo| && g < |fo| && t.ns == Rewired(ns, fo[g], g, x))
      && (forall x, a: nat :: BypassOf(ns, g) == Some(x) && a < |fo| && x < |fo| && g < |fo| ==>
        t.fo[a] == if a == g then [] else if a == x then fo[x] + fo[g] else fo[a])
  {
  }

  /** The buffers passed so far stay unread. */
  lemma BuffersStep(
      ns: seq<Node>, fo: seq<seq<nat>>, rank: seq<nat>, gates: seq<nat>, list: seq<nat>, done: seq<nat>, g: nat)
    requires Wired(ns, fo, rank, gates, list) && BuffersUnread(ns, fo, done) && g in gates && Ordinary(ns, g)
    requires Bypass(ns, fo, g).Some?
    ensures BuffersUnread(Bypass(ns, fo, g).value.ns, Bypass(ns, fo, g).value.fo, done + [g])
  {
    BypassShape(ns, fo, g);
    hide Wired, Bypass, Rewired;
    if x :| BypassOf(ns, g) == Some(x) {
      BypassRead(ns, fo, rank, gates, list, g, x);
    }
  }

  lemma RewiredFeeds(ns: seq<Node>, fs: seq<nat>, x: nat, y: nat, a: nat, h: nat)
    requires x != y
    ensures Feeds(Rewired(ns, fs, x, y), a, h) <==>
      (if h in fs && Feeds(ns, x, h) then (Feeds(ns, a, h) && a != x) || a == y else Feeds(ns, a, h))
  {
    if IsGate(ns, h) {
      ReplaceMembers(ns[h].fanins, x, y);
    }
  }

  /** Fanout lists stay true. */
  lemma TruthfulStep(
      ns: seq<Node>, fo: seq<seq<nat>>, rank: seq<nat>, gates: seq<nat>, list: seq<nat>, g: nat)
    requires Wired(ns, fo, rank, gates, list) && Truthful(ns, fo) && g in gates && Bypass(ns, fo, g).Some?
    ensures Truthful(Bypass(ns, fo, g).value.ns, Bypass(ns, fo, g).value.fo)
  {
    BypassShape(ns, fo, g);
    var t := Bypass(ns, fo, g).value;
    if x :| BypassOf(ns, g) == Some(x) {
      BypassRead(ns, fo, rank, gates, list, g, x);
      hide Bypass, Wired, Rewired, BypassOf, Feeds;
      forall a: nat, h: nat | a < |t.fo| && h in t.fo[a]
        ensures Feeds(t.ns, a, h)
      {
        RewiredFeeds(ns, fo[g], g, x, a, h);
        assert a == x && h in fo[g] ==> Feeds(ns, g, h);
      }
    }
  }

  /** Everything stays in order, and fanout lists stay true. */
  lemma OrderStep(
      ns: seq<Node>, fo: seq<seq<nat>>, rank: seq<nat>, gates: seq<nat>, list: seq<nat>, g: nat, x: nat)
    requires Wired(ns, fo, rank, gates, list) && InOrder(ns, gates) && Truthful(ns, fo)
    requires g in gates && BypassOf(ns, g) == Some(x) && Bypass(ns, fo, g).Some?
    ensures InOrder(Bypass(ns, fo, g).value.ns, gates)
    ensures Truthful(Bypass(ns, fo, g).value.ns, Bypass(ns, fo, g).value.fo)
  {
    BypassShape(ns, fo, g);
    BypassRead(ns, fo, rank, gates, list, g, x);
    TruthfulStep(ns, fo, rank, gates, list, g);
    var t := Bypass(ns, fo, g).value;
    hide Bypass, Wired, Rewired, BypassOf, Feeds, Truthful;
    forall p: nat, q: nat | p <= q < |gates|
      ensures !Feeds(t.ns, gates[q], gates[p])
    {
      RewiredFeeds(ns, fo[g], g, x, gates[q], gates[p]);
      EarlierThanBypassed(ns, gates, g, x, p, q);
    }
  }

  /** What a gate is replaced by comes before it, and so before everything that reads it. */
  lemma EarlierThanBypassed(ns: seq<Node>, gates: seq<nat>, g: nat, x: nat, p: nat, q: nat)
    requires InOrder(ns, gates) && p < |gates| && q < |gates| && g in gates
    requires Feeds(ns, x, g) || exists m: nat :: m in gates && Feeds(ns, x, m) && Feeds(ns, m, g)
    ensures gates[q] == x && (Feeds(ns, g, gates[p]) || g == gates[p]) ==> q < p
  {
    var i :| 0 <= i < |gates| && gates[i] == g && (g == gates[p] ==> i == p);
    if gates[q] == x {
      if !Feeds(ns, x, g) {
        var m: nat :| m in gates && Feeds(ns, x, m) && Feeds(ns, m, g);
        var k :| 0 <= k < |gates| && gates[k] == m;
        assert !(i <= k) && !(k <= q);
      } else {
        assert !(i <= q);
      }
      assert Feeds(ns, g, gates[p]) ==> !(p <= i);
    }
  }

  /** In order, the first pass over the gates never fails, and passes nothing that is still read. */
  lemma FirstPassStep(
      ns: seq<Node>, fo: seq<seq<nat>>, rank: seq<nat>, gates: seq<nat>, list: seq<nat>, i: nat)
    requires Wired(ns, fo, rank, gates, list) && InOrder(ns, gates) && Truthful(ns, fo) && i < |gates|
    requires Skipped(ns, fo, gates[..i]) && Singly(fo, gates[i..])
    ensures Bypass(ns, fo, gates[i]).Some?
    ensures var t := Bypass(ns, fo, gates[i]).value;
      && InOrder(t.ns, gates) && Truthful(t.ns, t.fo)
      && Skipped(t.ns, t.fo, gates[..i + 1]) && Singly(t.fo, gates[i + 1..])
  {
    var g := gates[i];
    assert gates[i..][0] == g && g in gates && gates[..i + 1] == gates[..i] + [g] && gates[i + 1..] == gates[i..][1..];
    if x :| BypassOf(ns, g) == Some(x) {
      BypassRead(ns, fo, rank, gates, list, g, x);
      assert Rewritable(ns, fo, g);
      BypassShape(ns, fo, g);
      OrderStep(ns, fo, rank, gates, list, g, x);
      var t := Bypass(ns, fo, g).value;
      hide Wired, Bypass, Rewired, BypassOf, InOrder, Truthful, NoDup;
      forall b | b in gates[..i + 1] && BypassOf(t.ns, b).Some?
        ensures Unread(t.fo, b)
      {
        var j :| 0 <= j <= i && gates[j] == b;
        BypassableBefore(ns, fo, gates, g, x, j, i);
        assert b != g ==> b in gates[..i];
      }
      forall b | b in gates[i + 1..]
        ensures b < |t.fo| && NoDup(t.fo[b])
      {
        var j: nat :| i + 1 <= j < |gates| && gates[j] == b;
        assert b in gates[i..];
        EarlierThanBypassed(ns, gates, g, x, i, j);
      }
    } else {
      BypassIs(ns, fo, g);
    }
  }

  /** Rewiring the readers of `g` makes no earlier gate a bypass. */
  lemma BypassableBefore(ns: seq<Node>, fo: seq<seq<nat>>, gates: seq<nat>, g: nat, x: nat, j: nat, i: nat)
    requires InOrder(ns, gates) && Truthful(ns, fo) && j <= i < |gates| && gates[i] == g && g < |fo| && |fo| == |ns|
    requires BypassOf(Rewired(ns, fo[g], g, x), gates[j]).Some?
    ensures BypassOf(ns, gates[j]).Some?
  {
    var b := gates[j];
    assert !Feeds(ns, g, b);
    assert b !in fo[g];
  }

  /** Once nobody reads a gate that can be bypassed, nothing changes any more. */
  lemma LaterPassStep(ns: seq<Node>, fo: seq<seq<nat>>, rank: seq<nat>, gates: seq<nat>, list: seq<nat>, g: nat)
    requires Wired(ns, fo, rank, gates, list) && Skipped(ns, fo, gates) && g in gates
    ensures Bypass(ns, fo, g) == Some(Wires(ns, fo))
  {
    if x :| BypassOf(ns, g) == Some(x) {
      BypassRead(ns, fo, rank, gates, list, g, x);
      assert Unread(fo, g);
      NothingRewired(ns, g, x);
      assert fo[x] + fo[g] == fo[x];
      assert fo[x := fo[x] + fo[g]][g := []] == fo;
    }
  }

  /** The state of the first pass before gate number `i`. */
  ghost predicate Passed(ns: seq<Node>, fo: seq<seq<nat>>, gates: seq<nat>, i: nat) {
    i <= |gates| && InOrder(ns, gates) && Truthful(ns, fo) && Skipped(ns, fo, gates[..i]) && Singly(fo, gates[i..])
  }

  lemma PassStep(
      ns: seq<Node>, fo: seq<seq<nat>>, rank: seq<nat>, gates: seq<nat>, list: seq<nat>, vals: iset<Model>, i: nat)
    requires Sound(ns, fo, rank, gates, list, vals) && i < |gates| && BuffersUnread(ns, fo, gates[..i])
    ensures var r := Bypass(ns, fo, gates[i]);
      && (r.Some? ==> BuffersUnread(r.value.ns, r.value.fo, gates[..i + 1]))
      && (Skipped(ns, fo, gates) ==> r == Some(Wires(ns, fo)))
      && (Passed(ns, fo, gates, i) ==> r.Some? && Passed(r.value.ns, r.value.fo, gates, i + 1))
  {
    var r := Bypass(ns, fo, gates[i]);
    assert gates[..i + 1] == gates[..i] + [gates[i]];
    assert Ordinary(ns, gates[i]);
    hide Bypass, BuffersUnread, Skipped, Wired;
    if r.Some? {
      BuffersStep(ns, fo, rank, gates, list, gates[..i], gates[i]);
    }
    if Skipped(ns, fo, gates) {
      LaterPassStep(ns, fo, rank, gates, list, gates[i]);
    }
    if Passed(ns, fo, gates, i) {
      FirstPassStep(ns, fo, rank, gates, list, i);
    }
  }

  /** The list is in order, and fanout lists are as `_init_fanouts` makes them, or there is nothing to bypass. */
  ghost predicate Orderly(ns: seq<Node>, fo: seq<seq<nat>>, gs: seq<nat>) {
    InOrder(ns, gs) && Truthful(ns, fo) && (Singly(fo, gs) || Skipped(ns, fo, gs))
  }

  /**
   Out of order the assertion can fail: node 2 buffers node 1, which buffers the
   input, and node 2 is visited first.  The and gate, which reads both, is then listed
   twice as a fanout of node 1.
   */
  lemma OutOfOrderFails()
    ensures var ns := [CktIn, Gate(Buf, [0], false), Gate(Buf, [1], false), Gate(And, [1, 2], false)];
      var fo := [[1], [2, 3], [3], []];
      && (forall a: nat, h: nat :: a < 4 ==> (h in fo[a] <==> Feeds(ns, a, h))) && Singly(fo, [2, 1, 3])
      && BypassAll(ns, fo, [2, 1, 3]).None?
  {
    hide BypassAll, Bypass, Rewired, Rewritable;
    var ns := [CktIn, Gate(Buf, [0], false), Gate(Buf, [1], false), Gate(And, [1, 2], false)];
    var fo: seq<seq<nat>> := [[1], [2, 3], [3], []];
    var ns1 := [CktIn, Gate(Buf, [0], false), Gate(Buf, [1], false), Gate(And, [1, 1], false)];
    var fo1: seq<seq<nat>> := [[1], [2, 3, 3], [], []];
    assert fo[1] + fo[2] == [2, 3, 3] && Replace([1, 2], 2, 1) == [1, 1];
    BypassTo(ns, fo, 2, 1, ns1, fo1);
    assert fo1[1][1] == 3 && fo1[1][2] == 3;
    BypassTwice(ns1, fo1, 1, 0);
    ShortList(ns, fo, 2, 1, 3);
  }

  lemma BypassTo(ns: seq<Node>, fo: seq<seq<nat>>, g: nat, x: nat, ns': seq<Node>, fo': seq<seq<nat>>)
    requires BypassOf(ns, g) == Some(x) && g < |fo| == |fo'| && x < |fo| && g != x && NoDup(fo[g])
    requires forall h :: h in fo[g] ==> Feeds(ns, g, h)
    requires fo'[g] == [] && fo'[x] == fo[x] + fo[g]
    requires forall a :: 0 <= a < |fo| && a != x && a != g ==> fo'[a] == fo[a]
    requires |ns'| == |ns| && forall a :: 0 <= a < |ns| ==>
      ns'[a] == if a in fo[g] && ns[a].Gate? then ns[a].(fanins := Replace(ns[a].fanins, g, x)) else ns[a]
    ensures Bypass(ns, fo, g) == Some(Wires(ns', fo'))
  {
    assert fo[x := fo[x] + fo[g]][g := []] == fo';
    assert Rewired(ns, fo[g], g, x) == ns';
  }

  lemma BypassTwice(ns: seq<Node>, fo: seq<seq<nat>>, g: nat, x: nat)
    requires BypassOf(ns, g) == Some(x) && g < |fo| && !NoDup(fo[g])
    ensures Bypass(ns, fo, g).None?
  {
  }

  lemma ShortList(ns: seq<Node>, fo: seq<seq<nat>>, g: nat, h: nat, e: nat)
    ensures BypassAll(ns, fo, [g, h, e]) ==
      match Bypass(ns, fo, g)
      case None => None
      case Some(w) =>
        match Bypass(w.ns, w.fo, h)
        case None => None
        case Some(v) => Bypass(v.ns, v.fo, e)
  {
    hide Bypass;
    assert [g, h, e][..2] == [g, h] && [g, h][..1] == [g] && [g][..0] == [];
    assert BypassAll(ns, fo, []) == Some(Wires(ns, fo));
    assert BypassAll(ns, fo, [g]) == Bypass(ns, fo, g);
  }

  lemma ClearFanouts(
      ns: seq<Node>, fo: seq<seq<nat>>, rank: seq<nat>, gates: seq<nat>, list: seq<nat>, vals: iset<Model>, g: nat)
    requires Sound(ns, fo, rank, gates, list, vals) && g < |ns|
    requires forall h :: h in fo[g] ==> !Feeds(ns, g, h)
    ensures Sound(ns, fo[g := []], rank, gates, list, vals)
  {
    var fo' := fo[g := []];
    forall a: nat, e: nat | e in gates && Feeds(ns, a, e)
      ensures a in list && a < |ns| && rank[a] < rank[e] && e in fo'[a]
    {
    }
  }

  // ----- when exactly the assertion holds -----

  /** What a pass starts from, without the fanout lists. */
  datatype Layout = Layout(ns: seq<Node>, rank: seq<nat>, gates: seq<nat>, list: seq<nat>)

  /** Fanins of listed gates are listed and come earlier in rank. */
  ghost predicate Climbs(l: Layout) {
    && |l.rank| == |l.ns|
    && (forall a :: a in l.list ==> a < |l.ns|)
    && (forall g :: g in l.gates ==> g in l.list && IsGate(l.ns, g))
    && (forall a: nat, g: nat :: g in l.gates && Feeds(l.ns, a, g) ==> a in l.list && l.rank[a] < l.rank[g])
    && (forall a: nat :: a in l.list && IsGate(l.ns, a) ==> a in l.gates)
  }

  lemma FaninClimbs(l: Layout, g: nat, k: nat)
    requires Climbs(l) && g in l.gates && k < |l.ns[g].fanins|
    ensures var a := l.ns[g].fanins[k]; a in l.list && g in l.list && l.rank[a] < l.rank[g]
  {
    assert Feeds(l.ns, l.ns[g].fanins[k], g);
  }

  /** Where gate `g` stands in the list. */
  ghost function Place(gates: seq<nat>, g: nat): (p: nat)
    requires g in gates
    ensures p < |gates| && gates[p] == g
  {
    var p: nat :| p < |gates| && gates[p] == g;
    p
  }

  predicate IsInverter(ns: seq<Node>, f: nat) {
    IsGate(ns, f) && ns[f].func == Not && |ns[f].fanins| == 1
  }

  /**
   What gate `g` is replaced by when the pass comes to it, found by following the
   original fanins: gates further up that stand before `g` have been replaced already.
   */
  ghost function Target(l: Layout, g: nat): (r: Option<nat>)
    requires Climbs(l) && g in l.gates
    ensures r.Some? ==> r.value in l.list && l.rank[r.value] < l.rank[g]
    decreases l.rank[g], 0
  {
    if |l.ns[g].fanins| != 1 then None
    else
      FaninClimbs(l, g, 0);
      var f := StandIn(l, Place(l.gates, g), l.ns[g].fanins[0]);
      if l.ns[g].func == Buf then Some(f)
      else if l.ns[g].func == Not && IsInverter(l.ns, f) then
        FaninClimbs(l, f, 0);
        Some(StandIn(l, Place(l.gates, g), l.ns[f].fanins[0]))
      else None
  }

  /** What readers of node `a` read once the first `i` gates have been visited. */
  ghost function StandIn(l: Layout, i: nat, a: nat): (r: nat)
    requires Climbs(l) && a in l.list
    ensures r in l.list && l.rank[r] <= l.rank[a]
    decreases l.rank[a], 1
  {
    if a !in l.gates || Place(l.gates, a) >= i then a
    else
      match Target(l, a)
      case None => a
      case Some(y) => StandIn(l, i, y)
  }

  ghost predicate StandsFor(l: Layout, i: nat, x: nat, a: nat)
    requires Climbs(l)
  {
    a in l.list && StandIn(l, i, a) == x
  }

  /** Two fanout entries, of nodes that `x` stands in for by then, name the same gate. */
  ghost predicate SameReader(l: Layout, fo: seq<seq<nat>>, i: nat, x: nat, a: nat, p: nat, b: nat, q: nat)
    requires Climbs(l)
  {
    && StandsFor(l, i, x, a) && StandsFor(l, i, x, b) && a < |fo| && b < |fo| && p < |fo[a]| && q < |fo[b]|
    && (a != b || p != q) && fo[a][p] == fo[b][q]
  }

  ghost predicate Meet(l: Layout, fo: seq<seq<nat>>, i: nat, x: nat)
    requires Climbs(l)
  {
    exists a: nat, p: nat, b: nat, q: nat :: SameReader(l, fo, i, x, a, p, b, q)
  }

  /** Gate number `i` is replaced although some gate reads it in two ways by then. */
  ghost predicate Clash(l: Layout, fo: seq<seq<nat>>, i: nat)
    requires Climbs(l) && i < |l.gates|
  {
    Target(l, l.gates[i]).Some? && Meet(l, fo, i, l.gates[i])
  }

  ghost predicate NoClash(l: Layout, fo: seq<seq<nat>>, n: nat) {
    Climbs(l) && n <= |l.gates| && forall i: nat :: i < n ==> !Clash(l, fo, i)
  }

  lemma {:induction false} Settled(l: Layout, i: nat, a: nat)
    requires Climbs(l) && a in l.list
    ensures StandIn(l, i, StandIn(l, i, a)) == StandIn(l, i, a)
    decreases l.rank[a]
  {
    if a in l.gates && Place(l.gates, a) < i && Target(l, a).Some? {
      Settled(l, i, Target(l, a).value);
    }
  }

  lemma PlaceIs(gates: seq<nat>, i: nat)
    requires NoDup(gates) && i < |gates|
    ensures Place(gates, gates[i]) == i
  {
  }

  /** The replacement of a gate has not been replaced itself. */
  lemma TargetSettled(l: Layout, i: nat)
    requires Climbs(l) && NoDup(l.gates) && i < |l.gates|
    ensures Target(l, l.gates[i]).Some? ==> StandIn(l, i, Target(l, l.gates[i]).value) == Target(l, l.gates[i]).value
    ensures StandIn(l, i, l.gates[i]) == l.gates[i]
  {
    var g := l.gates[i];
    PlaceIs(l.gates, i);
    if Target(l, g).Some? {
      FaninClimbs(l, g, 0);
      var f := l.ns[g].fanins[0];
      Settled(l, i, f);
      if l.ns[g].func == Not {
        var h := StandIn(l, i, f);
        FaninClimbs(l, h, 0);
        Settled(l, i, l.ns[h].fanins[0]);
      }
    }
  }

  /** Visiting one more gate replaces that gate, and nothing else. */
  lemma {:induction false} StandInStep(l: Layout, i: nat, a: nat)
    requires Climbs(l) && NoDup(l.gates) && i < |l.gates| && a in l.list
    ensures var s := StandIn(l, i, a); var t := Target(l, l.gates[i]);
      StandIn(l, i + 1, a) == if s == l.gates[i] && t.Some? then t.value else s
    decreases l.rank[a]
  {
    var g := l.gates[i];
    PlaceIs(l.gates, i);
    TargetSettled(l, i);
    if a in l.gates && Place(l.gates, a) <= i && Target(l, a).Some? {
      StandInStep(l, i, Target(l, a).value);
    }
  }

  // what the wires are after `i` visits, in terms of those before the pass

  ghost predicate TrackedGate(l: Layout, ns: seq<Node>, i: nat, h: nat)
    requires Climbs(l)
  {
    && IsGate(l.ns, h) && IsGate(ns, h) && ns[h].func == l.ns[h].func && |ns[h].fanins| == |l.ns[h].fanins|
    && forall k :: 0 <= k < |ns[h].fanins| ==> StandsFor(l, i, ns[h].fanins[k], l.ns[h].fanins[k])
  }

  /** `h` is in the fanout list of a node that `x` stands in for. */
  ghost predicate ReadsVia(l: Layout, fo: seq<seq<nat>>, i: nat, x: nat, h: nat)
    requires Climbs(l)
  {
    exists a: nat, p: nat :: StandsFor(l, i, x, a) && a < |fo| && p < |fo[a]| && fo[a][p] == h
  }

  ghost predicate TrackedList(l: Layout, fo0: seq<seq<nat>>, fo: seq<seq<nat>>, i: nat, x: nat)
    requires Climbs(l)
  {
    x < |fo| && (forall h :: h in fo[x] <==> ReadsVia(l, fo0, i, x, h)) && (NoDup(fo[x]) <==> !Meet(l, fo0, i, x))
  }

  ghost predicate Tracked(l: Layout, fo0: seq<seq<nat>>, ns: seq<Node>, fo: seq<seq<nat>>, i: nat)
    requires Climbs(l)
  {
    && (forall h :: h in l.gates ==> TrackedGate(l, ns, i, h))
    && (forall x: nat :: StandsFor(l, i, x, x) ==> TrackedList(l, fo0, fo, i, x))
  }

  lemma StartTracking(l: Layout, fo: seq<seq<nat>>)
    requires Climbs(l) && |fo| == |l.ns|
    ensures Tracked(l, fo, l.ns, fo, 0)
  {
    forall h | h in l.gates
      ensures TrackedGate(l, l.ns, 0, h)
    {
      forall k | 0 <= k < |l.ns[h].fanins|
        ensures StandsFor(l, 0, l.ns[h].fanins[k], l.ns[h].fanins[k])
      {
        FaninClimbs(l, h, k);
      }
    }
    forall x: nat | StandsFor(l, 0, x, x)
      ensures TrackedList(l, fo, fo, 0, x)
    {
      forall h | h in fo[x]
        ensures ReadsVia(l, fo, 0, x, h)
      {
        var p :| 0 <= p < |fo[x]| && fo[x][p] == h;
        assert StandsFor(l, 0, x, x) && fo[x][p] == h;
      }
      if p, q :| 0 <= p < q < |fo[x]| && fo[x][p] == fo[x][q] {
        assert SameReader(l, fo, 0, x, x, p, x, q);
      }
    }
  }

  /** The pass finds what following the original fanins finds. */
  lemma TargetFound(l: Layout, ns: seq<Node>, i: nat)
    requires Climbs(l) && NoDup(l.gates) && i < |l.gates| && SameKinds(l.ns, ns)
    requires forall h :: h in l.gates ==> TrackedGate(l, ns, i, h)
    ensures BypassOf(ns, l.gates[i]) == Target(l, l.gates[i])
  {
    var g := l.gates[i];
    PlaceIs(l.gates, i);
    assert TrackedGate(l, ns, i, g);
    if |l.ns[g].fanins| == 1 {
      FaninClimbs(l, g, 0);
      var f := ns[g].fanins[0];
      assert StandsFor(l, i, f, l.ns[g].fanins[0]);
      assert IsGate(ns, f) <==> IsGate(l.ns, f);
      if IsGate(l.ns, f) {
        assert TrackedGate(l, ns, i, f);
      }
    }
  }

  lemma TrackedGateStep(
      l: Layout, ns: seq<Node>, fo: seq<seq<nat>>, i: nat, x: nat, h: nat)
    requires Climbs(l) && NoDup(l.gates) && i < |l.gates| && Target(l, l.gates[i]) == Some(x) && l.gates[i] < |fo|
    requires TrackedGate(l, ns, i, h) && h in l.gates && (Feeds(ns, l.gates[i], h) ==> h in fo[l.gates[i]])
    ensures TrackedGate(l, Rewired(ns, fo[l.gates[i]], l.gates[i], x), i + 1, h)
  {
    var g := l.gates[i];
    var t := Rewired(ns, fo[g], g, x);
    assert IsGate(t, h);
    forall k | 0 <= k < |ns[h].fanins|
      ensures StandsFor(l, i + 1, t[h].fanins[k], l.ns[h].fanins[k])
    {
      assert StandsFor(l, i, ns[h].fanins[k], l.ns[h].fanins[k]);
      StandInStep(l, i, l.ns[h].fanins[k]);
      assert ns[h].fanins[k] == g ==> Feeds(ns, g, h);
    }
  }

  /** A visit that replaces nothing leaves every node where it was. */
  lemma NotReplaced(l: Layout, i: nat, x: nat, a: nat)
    requires Climbs(l) && NoDup(l.gates) && i < |l.gates|
    requires Target(l, l.gates[i]).None? || (x != l.gates[i] && Target(l, l.gates[i]) != Some(x))
    ensures StandsFor(l, i + 1, x, a) <==> StandsFor(l, i, x, a)
  {
    if a in l.list {
      StandInStep(l, i, a);
    }
  }

  lemma Replaced(l: Layout, i: nat, x: nat, a: nat)
    requires Climbs(l) && NoDup(l.gates) && i < |l.gates| && Target(l, l.gates[i]) == Some(x)
    ensures StandsFor(l, i + 1, x, a) <==> StandsFor(l, i, x, a) || StandsFor(l, i, l.gates[i], a)
    ensures !StandsFor(l, i + 1, l.gates[i], a)
    ensures x != l.gates[i]
  {
    if a in l.list {
      StandInStep(l, i, a);
    }
  }

  /** Nodes that nothing was moved to or from keep their readers. */
  lemma TrackedListKept(l: Layout, fo0: seq<seq<nat>>, fo: seq<seq<nat>>, fo': seq<seq<nat>>, i: nat, x: nat)
    requires Climbs(l) && NoDup(l.gates) && i < |l.gates| && TrackedList(l, fo0, fo, i, x)
    requires Target(l, l.gates[i]).None? || (x != l.gates[i] && Target(l, l.gates[i]) != Some(x))
    requires x < |fo'| && fo'[x] == fo[x]
    ensures TrackedList(l, fo0, fo', i + 1, x)
  {
    hide Climbs, NoDup, StandIn, Target, StandsFor;
    forall a: nat
      ensures StandsFor(l, i + 1, x, a) <==> StandsFor(l, i, x, a)
    {
      NotReplaced(l, i, x, a);
    }
    forall h
      ensures ReadsVia(l, fo0, i + 1, x, h) <==> ReadsVia(l, fo0, i, x, h)
    {
    }
    var j := i + 1;
    if a: nat, p: nat, b: nat, q: nat :| SameReader(l, fo0, j, x, a, p, b, q) {
      assert SameReader(l, fo0, i, x, a, p, b, q);
    }
    if a: nat, p: nat, b: nat, q: nat :| SameReader(l, fo0, i, x, a, p, b, q) {
      assert SameReader(l, fo0, j, x, a, p, b, q);
    }
    assert forall h :: h in fo[x] <==> ReadsVia(l, fo0, i, x, h);
  }

  lemma NoDupJoin(s: seq<nat>, t: seq<nat>)
    ensures NoDup(s + t) <==> NoDup(s) && NoDup(t) && forall h :: h in s ==> h !in t
  {
    var r := s + t;
    if NoDup(r) {
      assert r[..|s|] == s && r[|s|..] == t;
      forall p, q | 0 <= p < q < |t| ensures t[p] != t[q] {
        assert r[|s| + p] != r[|s| + q];
      }
      forall p, q | 0 <= p < |s| && 0 <= q < |t| ensures s[p] != t[q] {
        assert r[p] != r[|s| + q];
      }
    } else {
      var p, q :| 0 <= p < q < |r| && r[p] == r[q];
      assert q < |s| ==> s[p] == s[q];
      assert p >= |s| ==> t[p - |s|] == t[q - |s|];
      assert p < |s| <= q ==> s[p] in s && t[q - |s|] in t;
    }
  }

  /** A gate that reads `x` and one that reads `y`, both by way of original nodes, are different. */
  ghost predicate Apart(l: Layout, fo: seq<seq<nat>>, i: nat, x: nat, y: nat)
    requires Climbs(l)
  {
    forall h :: ReadsVia(l, fo, i, x, h) ==> !ReadsVia(l, fo, i, y, h)
  }

  /** What stands in for the nodes of both `x` and `g` meets a reader twice if one of them did, or if they share one. */
  lemma MeetJoin(l: Layout, fo: seq<seq<nat>>, i: nat, x: nat)
    requires Climbs(l) && NoDup(l.gates) && i < |l.gates| && Target(l, l.gates[i]) == Some(x)
    ensures Meet(l, fo, i + 1, x) <==>
      Meet(l, fo, i, x) || Meet(l, fo, i, l.gates[i]) || !Apart(l, fo, i, x, l.gates[i])
    ensures forall h :: ReadsVia(l, fo, i + 1, x, h) <==> ReadsVia(l, fo, i, x, h) || ReadsVia(l, fo, i, l.gates[i], h)
  {
    var g := l.gates[i];
    forall a: nat
      ensures StandsFor(l, i + 1, x, a) <==> StandsFor(l, i, x, a) || StandsFor(l, i, g, a)
    {
      Replaced(l, i, x, a);
    }
    Replaced(l, i, x, x);
    hide Climbs, NoDup, StandIn, Target;
    var j := i + 1;
    if a: nat, p: nat, b: nat, q: nat :| SameReader(l, fo, j, x, a, p, b, q) {
      JoinSplits(l, fo, i, x, g, a, p, b, q);
    }
    if a: nat, p: nat, b: nat, q: nat :| SameReader(l, fo, i, x, a, p, b, q) {
      assert SameReader(l, fo, i + 1, x, a, p, b, q);
    }
    if a: nat, p: nat, b: nat, q: nat :| SameReader(l, fo, i, g, a, p, b, q) {
      assert SameReader(l, fo, i + 1, x, a, p, b, q);
    }
    if h :| ReadsVia(l, fo, i, x, h) && ReadsVia(l, fo, i, g, h) {
      var a: nat, p: nat :| StandsFor(l, i, x, a) && a < |fo| && p < |fo[a]| && fo[a][p] == h;
      var b: nat, q: nat :| StandsFor(l, i, g, b) && b < |fo| && q < |fo[b]| && fo[b][q] == h;
      assert SameReader(l, fo, i + 1, x, a, p, b, q);
    }
  }

  lemma JoinSplits(
      l: Layout, fo: seq<seq<nat>>, i: nat, x: nat, g: nat, a: nat, p: nat, b: nat, q: nat)
    requires Climbs(l) && SameReader(l, fo, i + 1, x, a, p, b, q)
    requires StandsFor(l, i, x, a) || StandsFor(l, i, g, a)
    requires StandsFor(l, i, x, b) || StandsFor(l, i, g, b)
    ensures Meet(l, fo, i, x) || Meet(l, fo, i, g) || !Apart(l, fo, i, x, g)
  {
    hide Climbs, StandIn;
    var h := fo[a][p];
    if StandsFor(l, i, x, a) {
      if StandsFor(l, i, x, b) {
        assert SameReader(l, fo, i, x, a, p, b, q);
      } else {
        assert ReadsVia(l, fo, i, x, h) && ReadsVia(l, fo, i, g, h);
      }
    } else if StandsFor(l, i, x, b) {
      assert ReadsVia(l, fo, i, x, h) && ReadsVia(l, fo, i, g, h);
    } else {
      assert SameReader(l, fo, i, g, a, p, b, q);
    }
  }

  /** The replacement of the gate takes over its readers. */
  lemma TrackedListJoin(l: Layout, fo0: seq<seq<nat>>, fo: seq<seq<nat>>, fo': seq<seq<nat>>, i: nat, x: nat)
    requires Climbs(l) && NoDup(l.gates) && i < |l.gates| && Target(l, l.gates[i]) == Some(x)
    requires TrackedList(l, fo0, fo, i, x) && TrackedList(l, fo0, fo, i, l.gates[i])
    requires x < |fo'| && fo'[x] == fo[x] + fo[l.gates[i]]
    ensures TrackedList(l, fo0, fo', i + 1, x)
  {
    var g := l.gates[i];
    MeetJoin(l, fo0, i, x);
    NoDupJoin(fo[x], fo[g]);
    hide Climbs, NoDup, StandIn, Target, StandsFor, ReadsVia, Meet;
    forall h
      ensures h in fo'[x] <==> ReadsVia(l, fo0, i + 1, x, h)
    {
      assert h in fo'[x] <==> h in fo[x] || h in fo[g];
    }
  }

  /** One visit fails exactly if there is a clash, and otherwise the pass stays on track. */
  lemma TrackStep(l: Layout, fo0: seq<seq<nat>>, ns: seq<Node>, fo: seq<seq<nat>>, i: nat)
    requires Climbs(l) && NoDup(l.gates) && i < |l.gates| && SameKinds(l.ns, ns) && Truthful(ns, fo)
    requires Wired(ns, fo, l.rank, l.gates, l.list) && Tracked(l, fo0, ns, fo, i)
    ensures var r := Bypass(ns, fo, l.gates[i]);
      && (r.None? <==> Clash(l, fo0, i))
      && (r.Some? ==> Tracked(l, fo0, r.value.ns, r.value.fo, i + 1))
  {
    var g := l.gates[i];
    TargetFound(l, ns, i);
    TargetSettled(l, i);
    assert StandsFor(l, i, g, g);
    assert TrackedList(l, fo0, fo, i, g);
    BypassIs(ns, fo, g);
    hide Meet, StandIn, Target, BypassOf, Bypass, Rewired, NoDup;
    if x :| BypassOf(ns, g) == Some(x) {
      BypassRead(ns, fo, l.rank, l.gates, l.list, g, x);
      assert Rewritable(ns, fo, g) <==> !Meet(l, fo0, i, g);
      if Rewritable(ns, fo, g) {
        TrackBypass(l, fo0, ns, fo, i, x);
      }
    } else {
      TrackNone(l, fo0, ns, fo, i);
    }
  }

  lemma TrackNone(l: Layout, fo0: seq<seq<nat>>, ns: seq<Node>, fo: seq<seq<nat>>, i: nat)
    requires Climbs(l) && NoDup(l.gates) && i < |l.gates| && Tracked(l, fo0, ns, fo, i) && Target(l, l.gates[i]).None?
    ensures Tracked(l, fo0, ns, fo, i + 1)
  {
    hide Climbs, NoDup, StandIn, Target, TrackedList, Meet, StandsFor;
    forall h | h in l.gates
      ensures TrackedGate(l, ns, i + 1, h)
    {
      forall k | 0 <= k < |ns[h].fanins|
        ensures StandsFor(l, i + 1, ns[h].fanins[k], l.ns[h].fanins[k])
      {
        NotReplaced(l, i, ns[h].fanins[k], l.ns[h].fanins[k]);
      }
    }
    var j := i + 1;
    forall x: nat | StandsFor(l, j, x, x)
      ensures TrackedList(l, fo0, fo, i + 1, x)
    {
      NotReplaced(l, i, x, x);
      TrackedIn(l, fo0, fo, i, x);
      TrackedListKept(l, fo0, fo, fo, i, x);
    }
  }

  lemma TrackedIn(l: Layout, fo0: seq<seq<nat>>, fo: seq<seq<nat>>, i: nat, x: nat)
    requires Climbs(l) && TrackedList(l, fo0, fo, i, x)
    ensures x < |fo|
  {
  }

  lemma TrackBypass(l: Layout, fo0: seq<seq<nat>>, ns: seq<Node>, fo: seq<seq<nat>>, i: nat, x: nat)
    requires Climbs(l) && NoDup(l.gates) && i < |l.gates| && Target(l, l.gates[i]) == Some(x)
    requires Wired(ns, fo, l.rank, l.gates, l.list) && Tracked(l, fo0, ns, fo, i) && x < |fo|
    requires StandsFor(l, i, l.gates[i], l.gates[i]) && StandsFor(l, i, x, x) && l.gates[i] < |fo|
    ensures var g := l.gates[i];
      Tracked(l, fo0, Rewired(ns, fo[g], g, x), fo[x := fo[x] + fo[g]][g := []], i + 1)
  {
    hide Climbs, NoDup, StandIn, Target, TrackedList, Meet, StandsFor, Wired, Feeds, Rewired, TrackedGate;
    TrackBypassGates(l, ns, fo, i, x);
    TrackBypassLists(l, fo0, fo, i, i + 1, x);
  }

  lemma TrackBypassGates(l: Layout, ns: seq<Node>, fo: seq<seq<nat>>, i: nat, x: nat)
    requires Climbs(l) && NoDup(l.gates) && i < |l.gates| && Target(l, l.gates[i]) == Some(x)
    requires Wired(ns, fo, l.rank, l.gates, l.list) && l.gates[i] < |fo|
    requires forall h :: h in l.gates ==> TrackedGate(l, ns, i, h)
    ensures forall h :: h in l.gates ==> TrackedGate(l, Rewired(ns, fo[l.gates[i]], l.gates[i], x), i + 1, h)
  {
    var g := l.gates[i];
    assert forall h :: h in l.gates && Feeds(ns, g, h) ==> h in fo[g];
    hide *;
    forall h | h in l.gates
      ensures TrackedGate(l, Rewired(ns, fo[g], g, x), i + 1, h)
    {
      TrackedGateStep(l, ns, fo, i, x, h);
    }
  }

  lemma TrackBypassLists(l: Layout, fo0: seq<seq<nat>>, fo: seq<seq<nat>>, i: nat, j: nat, x: nat)
    requires Climbs(l) && NoDup(l.gates) && i < |l.gates| && Target(l, l.gates[i]) == Some(x)
    requires forall z: nat :: StandsFor(l, i, z, z) ==> TrackedList(l, fo0, fo, i, z)
    requires StandsFor(l, i, l.gates[i], l.gates[i]) && StandsFor(l, i, x, x) && l.gates[i] < |fo| && x < |fo|
    requires j == i + 1
    ensures var fo' := fo[x := fo[x] + fo[l.gates[i]]][l.gates[i] := []];
      forall y: nat :: StandsFor(l, j, y, y) ==> TrackedList(l, fo0, fo', j, y)
  {
    Replaced(l, i, x, x);
    hide *;
    var fo' := fo[x := fo[x] + fo[l.gates[i]]][l.gates[i] := []];
    forall y: nat | StandsFor(l, j, y, y)
      ensures TrackedList(l, fo0, fo', j, y)
    {
      TrackBypassList(l, fo0, fo, fo', i, x, y);
    }
  }

  lemma TrackBypassList(
      l: Layout, fo0: seq<seq<nat>>, fo: seq<seq<nat>>, fo': seq<seq<nat>>, i: nat, x: nat, y: nat)
    requires Climbs(l) && NoDup(l.gates) && i < |l.gates| && Target(l, l.gates[i]) == Some(x) && l.gates[i] < |fo|
    requires forall z: nat :: StandsFor(l, i, z, z) ==> TrackedList(l, fo0, fo, i, z)
    requires StandsFor(l, i, l.gates[i], l.gates[i]) && StandsFor(l, i, x, x) && StandsFor(l, i + 1, y, y)
    requires x < |fo| == |fo'| && fo'[x] == fo[x] + fo[l.gates[i]]
    requires forall y :: 0 <= y < |fo| && y != x && y != l.gates[i] ==> fo'[y] == fo[y]
    ensures TrackedList(l, fo0, fo', i + 1, y)
  {
    hide Climbs, NoDup, StandIn, Target, TrackedList, Meet, StandsFor;
    if y == x {
      TrackedListJoin(l, fo0, fo, fo', i, x);
    } else {
      Replaced(l, i, x, y);
      NotReplaced(l, i, y, y);
      TrackedIn(l, fo0, fo, i, y);
      TrackedListKept(l, fo0, fo, fo', i, y);
    }
  }

  // ----- the state of the loops of rewrite_buffers -----

  /** The first `i` readers of `g` read `x` instead. */
  ghost predicate Rerouting(
    ns0: seq<Node>, fo0: seq<seq<nat>>, ns: seq<Node>, fo: seq<seq<nat>>, g: nat, x: nat, i: nat)
  {
    && g < |fo0| && x < |fo0| == |ns0| && i <= |fo0[g]| && g != x
    && ns == Rewired(ns0, fo0[g][..i], g, x) && fo == fo0[x := fo0[x] + fo0[g][..i]]
    && NoDup(fo0[g][..i]) && forall j :: 0 <= j < i ==> Feeds(ns0, g, fo0[g][j])
  }

  lemma StartRerouting(
      ns: seq<Node>, fo: seq<seq<nat>>, rank: seq<nat>, gates: seq<nat>, list: seq<nat>, vals: iset<Model>, g: nat,
      x: nat)
    requires Sound(ns, fo, rank, gates, list, vals) && g in gates && g < |rank| && x < |rank| && rank[x] < rank[g]
    ensures |fo| == |rank| == |ns| && Rerouting(ns, fo, ns, fo, g, x, 0) && SameKinds(ns, ns)
  {
    NothingRewired(ns, g, x);
    assert fo[g][..0] == [] && fo[x] + fo[g][..0] == fo[x];
  }

  lemma ReroutingStep(
      ns0: seq<Node>, fo0: seq<seq<nat>>, ns: seq<Node>, fo: seq<seq<nat>>, rank: seq<nat>, gates: seq<nat>,
      list: seq<nat>, vals: iset<Model>, g: nat, x: nat, i: nat)
    requires Sound(ns, fo, rank, gates, list, vals) && x in list && g < |rank| && x < |rank| && rank[x] < rank[g]
    requires forall w :: w in vals ==> Bit(w, g) == Bit(w, x)
    requires Rerouting(ns0, fo0, ns, fo, g, x, i) && i < |fo0[g]|
    ensures fo0[g][i] < |ns| && ns[fo0[g][i]].Gate? && x < |fo| == |fo0| && g < |fo|
    ensures SameKinds(ns0, ns)
    ensures g !in ns[fo0[g][i]].fanins ==> !Rewritable(ns0, fo0, g)
    ensures g in ns[fo0[g][i]].fanins ==>
      var h := fo0[g][i];
      var ns' := ns[h := ns[h].(fanins := Replace(ns[h].fanins, g, x))];
      var fo' := fo[x := fo[x] + [h]];
      Sound(ns', fo', rank, gates, list, vals) && Rerouting(ns0, fo0, ns', fo', g, x, i + 1) && fo'[g] == fo[g]
  {
    var h := fo0[g][i];
    assert fo[g] == fo0[g];
    FanoutIsGate(ns, fo, rank, gates, list, vals, g, h);
    RerouteStep(ns0, ns, fo0[g], i, g, x);
    KindsRefl(ns0);
    hide Sound, Rewired;
    assert h in fo0[g];
    if g in ns[h].fanins {
      RewireStep(ns0, ns, fo, rank, gates, list, vals, g, x, h);
      assert fo0[g][..i + 1] == fo0[g][..i] + [h];
      assert fo0[x] + fo0[g][..i + 1] == (fo0[x] + fo0[g][..i]) + [h];
    } else {
      TwiceOrNever(ns0, fo0, g, i);
    }
  }

  lemma TwiceOrNever(ns: seq<Node>, fo: seq<seq<nat>>, g: nat, i: nat)
    requires g < |fo| && i < |fo[g]| && (!Feeds(ns, g, fo[g][i]) || fo[g][i] in fo[g][..i])
    ensures !Rewritable(ns, fo, g)
  {
    assert fo[g][i] in fo[g];
  }

  lemma ReroutingDone(
      ns0: seq<Node>, fo0: seq<seq<nat>>, ns: seq<Node>, fo: seq<seq<nat>>, rank: seq<nat>, gates: seq<nat>,
      list: seq<nat>, vals: iset<Model>, g: nat, x: nat)
    requires Sound(ns, fo, rank, gates, list, vals)
    requires g < |fo0| && Rerouting(ns0, fo0, ns, fo, g, x, |fo0[g]|)
    ensures g < |fo| && Sound(ns, fo[g := []], rank, gates, list, vals) && SameKinds(ns0, ns)
    ensures Rewritable(ns0, fo0, g) && ns == Rewired(ns0, fo0[g], g, x)
    ensures x < |fo0| && fo[g := []] == fo0[x := fo0[x] + fo0[g]][g := []]
  {
    assert fo0[g][..|fo0[g]|] == fo0[g];
    forall h | h in fo[g]
      ensures !Feeds(ns, g, h)
    {
      RewiredFeeds(ns0, fo0[g], g, x, g, h);
    }
    ClearFanouts(ns, fo, rank, gates, list, vals, g);
  }

  /** Every gate is listed once, and fanout lists are true: then the outcome of the pass can be foretold. */
  ghost predicate Foreseeable(l: Layout, fo: seq<seq<nat>>) {
    Climbs(l) && NoDup(l.gates) && |fo| == |l.ns| && Truthful(l.ns, fo)
  }

  /** The pass went as foretold for `i` gates. */
  ghost predicate AsForeseen(l: Layout, fo0: seq<seq<nat>>, ns: seq<Node>, fo: seq<seq<nat>>, i: nat) {
    NoClash(l, fo0, i) && Tracked(l, fo0, ns, fo, i) && Truthful(ns, fo)
  }

  /** The first `i` gates have been visited. */
  ghost predicate Bypassing(l: Layout, fo0: seq<seq<nat>>, ns: seq<Node>, fo: seq<seq<nat>>, i: nat) {
    && i <= |l.gates| && SameKinds(l.ns, ns) && BypassAll(l.ns, fo0, l.gates[..i]) == Some(Wires(ns, fo))
    && BuffersUnread(ns, fo, l.gates[..i]) && (Skipped(l.ns, fo0, l.gates) ==> ns == l.ns && fo == fo0)
    && (Passed(l.ns, fo0, l.gates, 0) ==> Passed(ns, fo, l.gates, i))
    && (Foreseeable(l, fo0) ==> AsForeseen(l, fo0, ns, fo, i))
  }

  lemma StartBypassing(l: Layout, fo: seq<seq<nat>>)
    ensures Bypassing(l, fo, l.ns, fo, 0) && SameKinds(l.ns, l.ns)
  {
    assert l.gates[..0] == [];
    if Foreseeable(l, fo) {
      StartTracking(l, fo);
    }
  }

  lemma NoClashStep(l: Layout, fo: seq<seq<nat>>, i: nat)
    requires Climbs(l) && i < |l.gates|
    ensures Clash(l, fo, i) ==> !NoClash(l, fo, |l.gates|)
    ensures NoClash(l, fo, i) && !Clash(l, fo, i) ==> NoClash(l, fo, i + 1)
  {
  }

  lemma ForeseenStep(l: Layout, fo0: seq<seq<nat>>, ns: seq<Node>, fo: seq<seq<nat>>, i: nat)
    requires Wired(ns, fo, l.rank, l.gates, l.list) && SameKinds(l.ns, ns) && i < |l.gates|
    requires Foreseeable(l, fo0) && AsForeseen(l, fo0, ns, fo, i)
    ensures var r := Bypass(ns, fo, l.gates[i]);
      && (r.None? ==> !NoClash(l, fo0, |l.gates|))
      && (r.Some? ==> AsForeseen(l, fo0, r.value.ns, r.value.fo, i + 1))
  {
    TrackStep(l, fo0, ns, fo, i);
    NoClashStep(l, fo0, i);
    hide Wired, Bypass, Tracked, Clash, Climbs, NoDup, Truthful, SameKinds, NoClash;
    if Bypass(ns, fo, l.gates[i]).Some? {
      TruthfulStep(ns, fo, l.rank, l.gates, l.list, l.gates[i]);
    }
  }

  lemma BypassIs(ns: seq<Node>, fo: seq<seq<nat>>, g: nat)
    ensures BypassOf(ns, g).None? ==> Bypass(ns, fo, g) == Some(Wires(ns, fo))
    ensures forall x :: BypassOf(ns, g) == Some(x) && x < |fo| ==>
      if Rewritable(ns, fo, g) then
        g < |fo| && Bypass(ns, fo, g) == Some(Wires(Rewired(ns, fo[g], g, x), fo[x := fo[x] + fo[g]][g := []]))
      else Bypass(ns, fo, g).None?
  {
  }

  lemma BypassingStep(
      l: Layout, fo0: seq<seq<nat>>, ns: seq<Node>, fo: seq<seq<nat>>, vals: iset<Model>, i: nat)
    requires Sound(ns, fo, l.rank, l.gates, l.list, vals) && i < |l.gates| && Bypassing(l, fo0, ns, fo, i)
    ensures SameKinds(l.ns, ns)
    ensures var r := Bypass(ns, fo, l.gates[i]);
      && (r.None? ==> BypassAll(l.ns, fo0, l.gates).None? && !Orderly(l.ns, fo0, l.gates))
      && (r.None? && Foreseeable(l, fo0) ==> !NoClash(l, fo0, |l.gates|))
      && (r.Some? && SameKinds(ns, r.value.ns) ==> Bypassing(l, fo0, r.value.ns, r.value.fo, i + 1))
  {
    var gates := l.gates;
    assert Wired(ns, fo, l.rank, gates, l.list);
    hide Sound, Bypass, BypassAll, Rewired, BuffersUnread, Skipped, Truthful, InOrder, Singly, SameKinds, Wired, Passed;
    hide Foreseeable, AsForeseen, NoClash;
    var r := Bypass(ns, fo, gates[i]);
    BypassAllStep(l.ns, fo0, gates, i);
    PassStep(ns, fo, l.rank, gates, l.list, vals, i);
    OrderlyPassed(l.ns, fo0, gates);
    if Foreseeable(l, fo0) {
      ForeseenStep(l, fo0, ns, fo, i);
    }
    if r.None? {
      BypassAllFails(l.ns, fo0, gates, i + 1);
    } else if SameKinds(ns, r.value.ns) {
      KindsTrans(l.ns, ns, r.value.ns);
    }
  }

  lemma OrderlyPassed(ns: seq<Node>, fo: seq<seq<nat>>, gates: seq<nat>)
    ensures Orderly(ns, fo, gates) ==> Skipped(ns, fo, gates) || Passed(ns, fo, gates, 0)
    ensures Passed(ns, fo, gates, |gates|) ==> Orderly(ns, fo, gates) && Skipped(ns, fo, gates)
  {
    assert gates[..0] == [] && gates[0..] == gates && gates[..|gates|] == gates;
    NoneSkipped(ns, fo);
  }

  lemma NoneSkipped(ns: seq<Node>, fo: seq<seq<nat>>)
    ensures Skipped(ns, fo, [])
  {
  }

  lemma BypassingDone(l: Layout, fo0: seq<seq<nat>>, ns: seq<Node>, fo: seq<seq<nat>>)
    requires Bypassing(l, fo0, ns, fo, |l.gates|)
    ensures SameKinds(l.ns, ns) && BypassAll(l.ns, fo0, l.gates) == Some(Wires(ns, fo))
    ensures BuffersUnread(ns, fo, l.gates)
    ensures Orderly(l.ns, fo0, l.gates) ==> Orderly(ns, fo, l.gates) && Skipped(ns, fo, l.gates)
    ensures Foreseeable(l, fo0) ==> NoClash(l, fo0, |l.gates|) && Truthful(ns, fo)
  {
    assert l.gates[..|l.gates|] == l.gates;
    hide BypassAll, BuffersUnread, Skipped, Truthful, InOrder, Singly, SameKinds, Passed, NoClash, Foreseeable, Tracked;
    OrderlyPassed(l.ns, fo0, l.gates);
    OrderlyPassed(ns, fo, l.gates);
  }

  // ----- what is an input and what is a gate -----

  lemma KindsTrans(a: seq<Node>, b: seq<Node>, c: seq<Node>)
    requires SameKinds(a, b) && SameKinds(b, c)
    ensures SameKinds(a, c)
  {
  }

  ghost predicate SameKinds(ns: seq<Node>, ns': seq<Node>) {
    && |ns'| == |ns|
    && forall a: nat :: a < |ns| ==> ns'[a].Gate? == ns[a].Gate? && (!ns[a].Gate? ==> ns'[a] == ns[a])
  }

  lemma KindsRefl(ns: seq<Node>)
    ensures SameKinds(ns, ns)
  {
  }

  lemma FanoutIsGate(
      ns: seq<Node>, fo: seq<seq<nat>>, rank: seq<nat>, gates: seq<nat>, list: seq<nat>, vals: iset<Model>, g: nat,
      h: nat)
    requires Sound(ns, fo, rank, gates, list, vals) && g < |fo| && h in fo[g]
    ensures h < |ns| && ns[h].Gate? && (g in ns[h].fanins <==> Feeds(ns, g, h))
  {
    assert IsGate(ns, h);
  }

  /** `RewireOne` in the terms of the loop. */
  lemma RewireStep(
      ns0: seq<Node>, ns: seq<Node>, fo: seq<seq<nat>>, rank: seq<nat>, gates: seq<nat>, list: seq<nat>,
      vals: iset<Model>, g: nat, x: nat, h: nat)
    requires Sound(ns, fo, rank, gates, list, vals) && x in list && SameKinds(ns0, ns)
    requires g < |rank| && x < |rank| && rank[x] < rank[g]
    requires Feeds(ns, g, h) && forall w :: w in vals ==> Bit(w, g) == Bit(w, x)
    ensures x < |fo| && h < |ns| && ns[h].Gate?
    ensures var ns' := ns[h := ns[h].(fanins := Replace(ns[h].fanins, g, x))]; var fo' := fo[x := fo[x] + [h]];
      && Sound(ns', fo', rank, gates, list, vals) && SameKinds(ns0, ns') && fo'[g] == fo[g]
      && !Feeds(ns', g, h) && forall e: nat :: !Feeds(ns, g, e) ==> !Feeds(ns', g, e)
  {
    RewireOne(ns, fo, rank, gates, list, vals, g, x, h);
  }
}
