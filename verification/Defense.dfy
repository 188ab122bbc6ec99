/**
 The netlist of `defense.cpp`: nodes with lists of fanins and fanouts, both with
 repetition, and the two encryptions that put key gates behind nodes.  A run keeps the
 two kinds of list mirror images, keeps the netlist acyclic, and keeps the value of
 every earlier node under the right key, on every input.
 */
module Defense {
  import opened Cnf
  import opened Netlist
  import opened GateAlgebra

  datatype Kind = PI | PO | Internal

  datatype BnNode = BnNode(kind: Kind, ftype: Func, fi: seq<nat>, fo: seq<nat>)

  // ----- values -----

  /** How many of the nodes in the list are 1, with repetition. */
  function Ones(w: Model, s: seq<nat>): (n: nat)
    ensures n <= |s|
  {
    if s == [] then 0 else (if Bit(w, s[0]) then 1 else 0) + Ones(w, s[1..])
  }

  /** The functions of a netlist file depend on the number of ones only. */
  predicate Out(f: Func, ones: nat, n: nat) {
    match f
    case And => ones == n
    case Nand => ones != n
    case Or | Buf => ones > 0
    case Nor | Not => ones == 0
    case Xor => ones % 2 == 1
    case Xnor => ones % 2 == 0
    case Mux => false
  }

  lemma {:induction false} OnesAll(w: Model, s: seq<nat>)
    ensures Ones(w, s) == |s| <==> AllTrue(Vals(w, s))
    ensures Ones(w, s) > 0 <==> AnyTrue(Vals(w, s))
  {
    if s != [] {
      OnesAll(w, s[1..]);
      assert Vals(w, s) == [Bit(w, s[0])] + Vals(w, s[1..]);
      TrueCons(Bit(w, s[0]), Vals(w, s[1..]));
    }
  }

  lemma TrueCons(x: bool, t: seq<bool>)
    ensures AllTrue([x] + t) <==> x && AllTrue(t)
    ensures AnyTrue([x] + t) <==> x || AnyTrue(t)
  {
    var v := [x] + t;
    assert v[0] == x && forall i :: 0 <= i < |t| ==> v[i + 1] == t[i];
    if AnyTrue(v) {
      var i :| 0 <= i < |v| && v[i];
      assert i > 0 ==> t[i - 1];
    }
  }

  /** Counting ones agrees with the gate functions of the circuit model. */
  lemma OutIsApply(f: Func, w: Model, s: seq<nat>)
    requires ArityOk(f, |s|) && f != Mux
    ensures Out(f, Ones(w, s), |s|) == Apply(f, Vals(w, s))
  {
    OnesAll(w, s);
    OnesParity(w, s);
    if |s| == 1 {
      assert s[1..] == [];
    }
  }

  lemma {:induction false} OnesParity(w: Model, s: seq<nat>)
    ensures Parity(Vals(w, s)) <==> Ones(w, s) % 2 == 1
  {
    if s != [] {
      var last := |s| - 1;
      OnesParity(w, s[..last]);
      OnesAppend(w, s[..last], s[last]);
      assert s[..last] + [s[last]] == s;
      assert Vals(w, s)[..last] == Vals(w, s[..last]);
    }
  }

  lemma {:induction false} OnesAppend(w: Model, s: seq<nat>, x: nat)
    ensures Ones(w, s + [x]) == Ones(w, s) + if Bit(w, x) then 1 else 0
  {
    if s == [] {
      assert s + [x] == [x] && [x][1..] == [];
    } else {
      OnesAppend(w, s[1..], x);
      assert (s + [x])[1..] == s[1..] + [x];
    }
  }

  lemma {:induction false} RemoveBag(s: seq<nat>, x: nat)
    requires x in s
    ensures |Remove(s, x)| == |s| - 1 && multiset(s) == multiset(Remove(s, x)) + multiset{x}
    ensures forall y :: y in Remove(s, x) ==> y in s
  {
    assert s == [s[0]] + s[1..];
    if s[0] != x {
      RemoveBag(s[1..], x);
      assert Remove(s, x) == [s[0]] + Remove(s[1..], x);
    }
  }

  lemma {:induction false} OnesRemove(w: Model, s: seq<nat>, x: nat)
    requires x in s
    ensures Ones(w, Remove(s, x)) == Ones(w, s) - if Bit(w, x) then 1 else 0
  {
    if s[0] != x {
      OnesRemove(w, s[1..], x);
      assert ([s[0]] + Remove(s[1..], x))[1..] == Remove(s[1..], x);
    }
  }

  // ----- netlists -----

  ghost predicate InRange(ns: seq<BnNode>) {
    && (forall g: nat, a :: g < |ns| && a in ns[g].fi ==> a < |ns|)
    && (forall a: nat, g :: a < |ns| && g in ns[a].fo ==> g < |ns|)
  }

  /** Fanins and fanouts are mirror images, with multiplicity. */
  ghost predicate Mirror(ns: seq<BnNode>) {
    forall a: nat, g: nat :: a < |ns| && g < |ns| ==> multiset(ns[a].fo)[g] == multiset(ns[g].fi)[a]
  }

  ghost predicate Acyclic(ns: seq<BnNode>) {
    exists rank: seq<nat> :: Ranks(ns, rank)
  }

  ghost predicate Ranks(ns: seq<BnNode>, rank: seq<nat>) {
    |rank| == |ns| && forall g: nat, a :: g < |ns| && a in ns[g].fi && a < |ns| ==> rank[a] < rank[g]
  }

  ghost predicate Valid(ns: seq<BnNode>) {
    InRange(ns) && Mirror(ns) && Acyclic(ns) && forall g: nat :: g < |ns| ==> ns[g].ftype != Mux
  }

  /** Every node with fanins has the value of its function; one without is free. */
  ghost predicate Fits(ns: seq<BnNode>, w: Model) {
    |w| == |ns| && forall g: nat :: g < |ns| ==> NodeFits(ns[g], w, g)
  }

  ghost predicate NodeFits(nd: BnNode, w: Model, g: nat) {
    nd.fi != [] ==> Bit(w, g) == Out(nd.ftype, Ones(w, nd.fi), |nd.fi|)
  }

  /** The lists have as many ones whenever `b` and `n` have the same value. */
  ghost predicate SameOnes(s: seq<nat>, t: seq<nat>, b: nat, n: nat) {
    |s| == |t| && forall w: Model :: Bit(w, b) == Bit(w, n) ==> Ones(w, s) == Ones(w, t)
  }

  lemma SameOnesStep(s: seq<nat>, t: seq<nat>, b: nat, n: nat)
    requires SameOnes(s, t, b, n) && b in t
    ensures SameOnes(s, Remove(t + [n], b), b, n)
  {
    RemoveBag(t + [n], b);
    forall w: Model | Bit(w, b) == Bit(w, n) ensures Ones(w, s) == Ones(w, Remove(t + [n], b)) {
      OnesAppend(w, t, n);
      OnesRemove(w, t + [n], b);
    }
  }

  /** The bit that makes a key gate give back its other input. */
  predicate KeyBit(f: Func) {
    f == And || f == Xnor
  }

  predicate KeyGate(f: Func) {
    f == And || f == Or || f == Xor || f == Xnor
  }

  // ----- one insertion -----

  /** `ns'` is `ns` with a gate over the key `a` and node `b`, which takes over the fanouts of `b`. */
  ghost predicate Inserted(ns: seq<BnNode>, ns': seq<BnNode>, a: nat, b: nat, f: Func) {
    var n: nat := |ns|;
    && a < n && b < n && |ns'| == n + 1 && ns'[n].ftype == f && ns'[n].fi == [a, b]
    && (forall g: nat :: g < n ==> ns'[g].kind == ns[g].kind && ns'[g].ftype == ns[g].ftype)
    && (forall g: nat :: g < n ==> SameOnes(ns[g].fi, ns'[g].fi, b, n))
    && (forall g: nat, x :: g < n && x in ns'[g].fi ==> Reads(ns[g], x, b, n))
  }

  predicate Reads(nd: BnNode, x: nat, b: nat, n: nat) {
    (x in nd.fi && x != b) || (x == n && b in nd.fi)
  }

  /** While the fanouts are moved `b` may still be read. */
  predicate MayRead(nd: BnNode, x: nat, b: nat, n: nat) {
    x in nd.fi || (x == n && b in nd.fi)
  }

  /** The netlist with one fanout `g` of `b` moved to the new gate `n`. */
  function Moved(ns: seq<BnNode>, b: nat, n: nat, g: nat): (r: seq<BnNode>)
    requires b < |ns| && n < |ns| && g < |ns|
    ensures |r| == |ns|
  {
    var ns1 := ns[b := ns[b].(fo := Remove(ns[b].fo, g))];
    var ns2 := ns1[g := ns1[g].(fi := ns1[g].fi + [n])];
    var ns3 := ns2[g := ns2[g].(fi := Remove(ns2[g].fi, b))];
    ns3[n := ns3[n].(fo := ns3[n].fo + [g])]
  }

  lemma MovedShape(ns: seq<BnNode>, b: nat, n: nat, g: nat)
    requires b < |ns| && n < |ns| && g < |ns| && g != b && g != n && b != n
    ensures var ns' := Moved(ns, b, n, g);
      && ns'[g] == ns[g].(fi := Remove(ns[g].fi + [n], b))
      && ns'[b] == ns[b].(fo := Remove(ns[b].fo, g))
      && ns'[n] == ns[n].(fo := ns[n].fo + [g])
      && (forall x: nat :: x < |ns| && x != g && x != b && x != n ==> ns'[x] == ns[x])
  {
  }

  function One(c: bool): nat {
    if c then 1 else 0
  }

  lemma MovedFanouts(ns: seq<BnNode>, b: nat, n: nat, g: nat, x: nat, y: nat)
    requires b < |ns| && n < |ns| && g < |ns| && g != b && g != n && b != n && x < |ns| && g in ns[b].fo
    ensures multiset(Moved(ns, b, n, g)[x].fo)[y] ==
      multiset(ns[x].fo)[y] - One(x == b && y == g) + One(x == n && y == g)
  {
    MovedShape(ns, b, n, g);
    hide Moved;
    if x == b {
      RemoveBag(ns[b].fo, g);
    } else if x == n {
      assert multiset(ns[n].fo + [g]) == multiset(ns[n].fo) + multiset{g};
    }
  }

  lemma MovedFanins(ns: seq<BnNode>, b: nat, n: nat, g: nat, x: nat, y: nat)
    requires b < |ns| && n < |ns| && g < |ns| && g != b && g != n && b != n && y < |ns| && b in ns[g].fi
    ensures multiset(Moved(ns, b, n, g)[y].fi)[x] ==
      multiset(ns[y].fi)[x] - One(x == b && y == g) + One(x == n && y == g)
  {
    MovedShape(ns, b, n, g);
    hide Moved;
    if y == g {
      RemoveBag(ns[g].fi + [n], b);
      assert multiset(ns[g].fi + [n]) == multiset(ns[g].fi) + multiset{n};
      var rest: seq<nat> := Remove(ns[g].fi + [n], b);
      var m: multiset<nat> := multiset(rest);
      assert (m + multiset{b})[x] == m[x] + One(x == b);
      assert (multiset(ns[g].fi) + multiset{n})[x] == multiset(ns[g].fi)[x] + One(x == n);
    }
  }

  lemma MovedMirror(ns: seq<BnNode>, b: nat, n: nat, g: nat)
    requires InRange(ns) && Mirror(ns) && b < |ns| && n < |ns| && g < |ns| && g != b && g != n && b != n
    requires g in ns[b].fo
    ensures b in ns[g].fi && InRange(Moved(ns, b, n, g)) && Mirror(Moved(ns, b, n, g))
  {
    assert multiset(ns[b].fo)[g] > 0;
    assert b in multiset(ns[g].fi);
    hide Remove;
    var ns' := Moved(ns, b, n, g);
    forall x: nat, y: nat | x < |ns| && y < |ns|
      ensures multiset(ns'[x].fo)[y] == multiset(ns'[y].fi)[x]
    {
      hide Moved, Mirror;
      assert multiset(ns[x].fo)[y] == multiset(ns[y].fi)[x] by {
        MirrorAt(ns, x, y);
      }
      MovedFanouts(ns, b, n, g, x, y);
      MovedFanins(ns, b, n, g, x, y);
    }
    MovedInRange(ns, b, n, g);
  }

  lemma MirrorAt(ns: seq<BnNode>, x: nat, y: nat)
    requires Mirror(ns) && x < |ns| && y < |ns|
    ensures multiset(ns[x].fo)[y] == multiset(ns[y].fi)[x]
  {
  }

  lemma MovedInRange(ns: seq<BnNode>, b: nat, n: nat, g: nat)
    requires InRange(ns) && b < |ns| && n < |ns| && g < |ns| && g != b && g != n && b != n
    requires g in ns[b].fo && b in ns[g].fi
    ensures InRange(Moved(ns, b, n, g))
  {
    MovedShape(ns, b, n, g);
    RemoveBag(ns[b].fo, g);
    RemoveBag(ns[g].fi + [n], b);
    hide Moved, Remove;
  }

  lemma NobodyReads(ns: seq<BnNode>, a: nat, g: nat)
    requires Mirror(ns) && a < |ns| && g < |ns| && ns[a].fo == []
    ensures a !in ns[g].fi
  {
    MirrorAt(ns, a, g);
    assert a !in multiset(ns[g].fi);
  }

  // ----- what an insertion keeps -----

  lemma InsertedAcyclic(ns: seq<BnNode>, ns': seq<BnNode>, a: nat, b: nat, f: Func)
    requires Inserted(ns, ns', a, b, f) && InRange(ns) && Acyclic(ns) && a != b && ns[a].fi == [] == ns[a].fo
    requires Mirror(ns)
    ensures Acyclic(ns')
  {
    var n: nat := |ns|;
    var rank: seq<nat> :| Ranks(ns, rank);
    var old2 := seq(n, x requires 0 <= x < n => if x == a then 0 else 2 * rank[x] + 1);
    var rank' := old2 + [2 * rank[b] + 2];
    forall g: nat, x | g < |ns'| && x in ns'[g].fi && x < |ns'|
      ensures rank'[x] < rank'[g]
    {
      if g < n {
        assert Reads(ns[g], x, b, n);
        NobodyReads(ns, a, g);
      }
    }
    assert Ranks(ns', rank');
  }

  /** A node fits before the insertion exactly if it fits afterwards, when the new gate has the value of `b`. */
  lemma InsertedFits(ns: seq<BnNode>, ns': seq<BnNode>, a: nat, b: nat, f: Func, w': Model, g: nat)
    requires Inserted(ns, ns', a, b, f) && InRange(ns) && |w'| == |ns'| && g < |ns| && Bit(w', b) == Bit(w', |ns|)
    ensures NodeFits(ns'[g], w', g) <==> NodeFits(ns[g], w'[..|ns|], g)
  {
    assert SameOnes(ns[g].fi, ns'[g].fi, b, |ns|);
    OnesPrefix(w', |ns|, ns[g].fi);
  }

  lemma {:induction false} OnesPrefix(w: Model, n: nat, s: seq<nat>)
    requires n <= |w| && forall x :: x in s ==> x < n
    ensures Ones(w, s) == Ones(w[..n], s)
  {
    if s != [] {
      assert s[0] in s && forall x :: x in s[1..] ==> x in s;
      OnesPrefix(w, n, s[1..]);
    }
  }

  /** The key gate gives back the value of `b` when its key has the right bit. */
  lemma GateGivesBack(f: Func, w: Model, a: nat, b: nat)
    requires KeyGate(f) && Bit(w, a) == KeyBit(f)
    ensures Out(f, Ones(w, [a, b]), 2) == Bit(w, b)
  {
    assert [a, b][1..] == [b] && [b][1..] == [];
  }

  /** Under the right keys the netlists have the same values at all earlier nodes. */
  ghost predicate Preserves(ns: seq<BnNode>, ns': seq<BnNode>, keys: seq<nat>, kv: seq<bool>) {
    && |ns| <= |ns'| && |keys| == |kv| && (forall k :: k in keys ==> |ns| <= k < |ns'|)
    && (forall w' :: Fits(ns', w') && Vals(w', keys) == kv ==> Fits(ns, w'[..|ns|]))
    && (forall w :: Fits(ns, w) ==> exists w' :: Fits(ns', w') && Vals(w', keys) == kv && w'[..|ns|] == w)
  }

  lemma RoundPreserves(ns: seq<BnNode>, pi: BnNode, ns': seq<BnNode>, b: nat, f: Func)
    requires pi.fi == [] && InRange(ns) && InRange(ns + [pi]) && Inserted(ns + [pi], ns', |ns|, b, f) && KeyGate(f)
    requires b < |ns|
    ensures Preserves(ns, ns', [|ns|], [KeyBit(f)])
  {
    var a: nat := |ns|;
    var ns1 := ns + [pi];
    var n: nat := |ns1|;
    forall w' | Fits(ns', w') && Vals(w', [a]) == [KeyBit(f)]
      ensures Fits(ns, w'[..|ns|])
    {
      assert Vals(w', [a])[0] == Bit(w', a);
      GateGivesBack(f, w', a, b);
      assert NodeFits(ns'[n], w', n);
      forall g: nat | g < |ns| ensures NodeFits(ns[g], w'[..|ns|], g) {
        InsertedFits(ns1, ns', a, b, f, w', g);
        assert NodeFits(ns'[g], w', g);
        OnesPrefix(w', |ns|, ns[g].fi);
        OnesPrefix(w', n, ns[g].fi);
      }
    }
    forall w | Fits(ns, w)
      ensures exists w' :: Fits(ns', w') && Vals(w', [a]) == [KeyBit(f)] && w'[..|ns|] == w
    {
      var w' := w + [KeyBit(f), Bit(w, b)];
      GateGivesBack(f, w', a, b);
      forall g: nat | g < |ns'| ensures NodeFits(ns'[g], w', g) {
        if g < n {
          InsertedFits(ns1, ns', a, b, f, w', g);
          if g < |ns| {
            assert NodeFits(ns[g], w, g);
            assert w'[..|ns|] == w;
            OnesPrefix(w', |ns|, ns[g].fi);
            OnesPrefix(w', n, ns[g].fi);
          }
        }
      }
      assert Vals(w', [a]) == [KeyBit(f)] && w'[..|ns|] == w;
    }
  }

  lemma PreservesRefl(ns: seq<BnNode>)
    ensures Preserves(ns, ns, [], [])
  {
    forall w | Fits(ns, w) ensures w[..|ns|] == w && Vals(w, []) == [] {
    }
  }

  /** The values of two runs of keys, the first of which are nodes below `n`. */
  lemma SplitKeys(w: Model, n: nat, k1: seq<nat>, v1: seq<bool>, k2: seq<nat>, v2: seq<bool>)
    requires n <= |w| && |k1| == |v1| && |k2| == |v2| && forall k :: k in k1 ==> k < n
    ensures Vals(w, k1 + k2) == v1 + v2 <==> Vals(w[..n], k1) == v1 && Vals(w, k2) == v2
  {
    var x, y := Vals(w, k1), Vals(w, k2);
    assert Vals(w, k1 + k2) == x + y;
    assert Vals(w[..n], k1) == x by {
      forall p | 0 <= p < |k1| ensures Bit(w[..n], k1[p]) == Bit(w, k1[p]) {
        assert k1[p] in k1;
      }
    }
    assert (x + y)[..|k1|] == x && (x + y)[|k1|..] == y && (v1 + v2)[..|k1|] == v1 && (v1 + v2)[|k1|..] == v2;
  }

  lemma PreservesTrans(
      ns0: seq<BnNode>, ns1: seq<BnNode>, ns2: seq<BnNode>, k1: seq<nat>, v1: seq<bool>, k2: seq<nat>, v2: seq<bool>)
    requires Preserves(ns0, ns1, k1, v1) && Preserves(ns1, ns2, k2, v2)
    ensures Preserves(ns0, ns2, k1 + k2, v1 + v2)
  {
    hide Vals;
    forall w2 | |w2| == |ns2|
      ensures Vals(w2, k1 + k2) == v1 + v2 <==> Vals(w2[..|ns1|], k1) == v1 && Vals(w2, k2) == v2
      ensures w2[..|ns1|][..|ns0|] == w2[..|ns0|]
    {
      SplitKeys(w2, |ns1|, k1, v1, k2, v2);
    }
    forall w0 | Fits(ns0, w0)
      ensures exists w2 :: Fits(ns2, w2) && Vals(w2, k1 + k2) == v1 + v2 && w2[..|ns0|] == w0
    {
      var w1 :| Fits(ns1, w1) && Vals(w1, k1) == v1 && w1[..|ns0|] == w0;
      var w2 :| Fits(ns2, w2) && Vals(w2, k2) == v2 && w2[..|ns1|] == w1;
      FitsSize(ns2, w2);
    }
    forall w2 | Fits(ns2, w2) && Vals(w2, k1 + k2) == v1 + v2
      ensures Fits(ns0, w2[..|ns0|])
    {
      FitsSize(ns2, w2);
      assert Fits(ns1, w2[..|ns1|]);
    }
  }

  lemma FitsSize(ns: seq<BnNode>, w: Model)
    requires Fits(ns, w)
    ensures |w| == |ns|
  {
  }

  /** The state of a run: how the netlist came from `ns0` with the keys inserted so far. */
  ghost predicate Encrypted(ns0: seq<BnNode>, ns: seq<BnNode>, keys: seq<nat>, fs: seq<Func>) {
    Valid(ns) && Preserves(ns0, ns, keys, KeyBits(fs)) && (forall g: nat :: g < |ns0| ==> |ns[g].fi| == |ns0[g].fi|)
  }

  /** The key bits for a list of inserted gates. */
  function KeyBits(fs: seq<Func>): (r: seq<bool>)
    ensures |r| == |fs|
  {
    seq(|fs|, i requires 0 <= i < |fs| => KeyBit(fs[i]))
  }

  lemma StartRun(ns: seq<BnNode>)
    requires Valid(ns)
    ensures Encrypted(ns, ns, [], [])
  {
    PreservesRefl(ns);
    assert KeyBits([]) == [];
  }

  /** One more key and gate. */
  lemma RunStep(ns0: seq<BnNode>, ns: seq<BnNode>, ns': seq<BnNode>, keys: seq<nat>, fs: seq<Func>, b: nat, f: Func)
    requires Encrypted(ns0, ns, keys, fs) && b < |ns| && KeyGate(f)
    requires Valid(ns') && Valid(ns + [BnNode(PI, Buf, [], [])])
    requires Inserted(ns + [BnNode(PI, Buf, [], [])], ns', |ns|, b, f)
    ensures Encrypted(ns0, ns', keys + [|ns|], fs + [f])
  {
    RoundPreserves(ns, BnNode(PI, Buf, [], []), ns', b, f);
    assert KeyBits(fs + [f]) == KeyBits(fs) + [KeyBit(f)];
    var pis := ns + [BnNode(PI, Buf, [], [])];
    forall g: nat | g < |ns0| ensures |ns'[g].fi| == |ns0[g].fi| {
      assert SameOnes(pis[g].fi, ns'[g].fi, b, |pis|);
    }
    hide Preserves, Valid, Inserted, KeyBits;
    PreservesTrans(ns0, ns, ns', keys, KeyBits(fs), [|ns|], [KeyBit(f)]);
  }

  /** `gate_choice` of a dice throw. */
  function Choice(dice: nat): (f: Func)
    ensures KeyGate(f)
  {
    if dice < 25 then And else if dice < 50 then Or else if dice < 75 then Xor else Xnor
  }

  /** The kinds of gate are those the dice say, in order. */
  predicate Chosen(fs: seq<Func>, dice: seq<nat>) {
    |fs| <= |dice| && forall k :: 0 <= k < |fs| ==> fs[k] == Choice(dice[k])
  }

  /** What `n` rounds of `denseInsert` leave of a quota. */
  function QuotaAfter(quota: int, n: nat): int {
    quota - 3 * n
  }

  /** What gates of these kinds cost. */
  function Spent(fs: seq<Func>): int {
    if fs == [] then 0 else Spent(fs[..|fs| - 1]) + Price(fs[|fs| - 1])
  }

  /** The xor and xnor gates among them. */
  function XorCount(fs: seq<Func>): nat {
    multiset(fs)[Xor] + multiset(fs)[Xnor]
  }

  /** An and or or gate costs 1, an xor or xnor gate 3. */
  lemma {:induction false} SpentCounts(fs: seq<Func>)
    requires forall f :: f in fs ==> KeyGate(f)
    ensures Spent(fs) == |fs| + 2 * XorCount(fs)
  {
    if fs != [] {
      var last := |fs| - 1;
      assert fs == fs[..last] + [fs[last]] && fs[last] in fs;
      SpentCounts(fs[..last]);
    }
  }

  function Price(f: Func): int {
    if f == And || f == Or then 1 else 3
  }

  // ----- moving the fanouts -----

  /** The new gate is in place, and the fanouts in `todo` still have to be moved to it. */
  ghost predicate Moving(ns0: seq<BnNode>, ns: seq<BnNode>, a: nat, b: nat, f: Func, todo: seq<nat>) {
    var n: nat := |ns0|;
    && a < n && b < n && |ns| == n + 1 && ns[n].ftype == f && ns[n].fi == [a, b] && ns[b].fo == todo + [n]
    && InRange(ns) && Mirror(ns)
    && (forall g :: g in todo ==> g < n && g != b)
    && SameNodes(ns0, ns, b)
  }

  ghost predicate SameNodes(ns0: seq<BnNode>, ns: seq<BnNode>, b: nat)
    requires |ns0| < |ns|
  {
    && (forall g: nat :: g < |ns0| ==> ns[g].kind == ns0[g].kind && ns[g].ftype == ns0[g].ftype)
    && (forall g: nat :: g < |ns0| ==> SameOnes(ns0[g].fi, ns[g].fi, b, |ns0|))
    && (forall g: nat, x :: g < |ns0| && x in ns[g].fi ==> MayRead(ns0[g], x, b, |ns0|))
  }

  /** The netlist with the new gate, before any fanout is moved. */
  function Opened(ns: seq<BnNode>, a: nat, b: nat, f: Func): (r: seq<BnNode>)
    requires a < |ns| && b < |ns|
    ensures |r| == |ns| + 1
  {
    var n: nat := |ns|;
    var ns1 := ns + [BnNode(Internal, f, [a, b], [])];
    var ns2 := ns1[a := ns1[a].(fo := ns1[a].fo + [n])];
    ns2[b := ns2[b].(fo := ns2[b].fo + [n])]
  }

  lemma OpenedShape(ns: seq<BnNode>, a: nat, b: nat, f: Func)
    requires a < |ns| && b < |ns| && a != b
    ensures var n: nat := |ns|; var r := Opened(ns, a, b, f);
      && r[n] == BnNode(Internal, f, [a, b], [])
      && r[a] == ns[a].(fo := ns[a].fo + [n]) && r[b] == ns[b].(fo := ns[b].fo + [n])
      && (forall g: nat :: g < n && g != a && g != b ==> r[g] == ns[g])
  {
  }

  lemma OpenedMirror(ns: seq<BnNode>, a: nat, b: nat, f: Func)
    requires InRange(ns) && Mirror(ns) && a < |ns| && b < |ns| && a != b
    ensures InRange(Opened(ns, a, b, f)) && Mirror(Opened(ns, a, b, f))
  {
    var n: nat := |ns|;
    var r := Opened(ns, a, b, f);
    OpenedShape(ns, a, b, f);
    hide Opened;
    forall x: nat, y: nat | x < |r| && y < |r|
      ensures multiset(r[x].fo)[y] == multiset(r[y].fi)[x]
    {
      hide InRange, Mirror;
      OpenedFanouts(ns, a, b, f, x, y);
      OpenedFanins(ns, a, b, f, x, y);
      if x < n && y < n {
        MirrorAt(ns, x, y);
      }
    }
    OpenedInRange(ns, a, b, f);
  }

  lemma OpenedInRange(ns: seq<BnNode>, a: nat, b: nat, f: Func)
    requires InRange(ns) && a < |ns| && b < |ns| && a != b
    ensures InRange(Opened(ns, a, b, f))
  {
    OpenedShape(ns, a, b, f);
    hide Opened;
  }

  lemma OpenedFanouts(ns: seq<BnNode>, a: nat, b: nat, f: Func, x: nat, y: nat)
    requires InRange(ns) && a < |ns| && b < |ns| && a != b && x <= |ns|
    ensures multiset(Opened(ns, a, b, f)[x].fo)[y] ==
      if x < |ns| && y < |ns| then multiset(ns[x].fo)[y] else One(y == |ns| && (x == a || x == b))
  {
    OpenedShape(ns, a, b, f);
    hide Opened;
    if x < |ns| {
      assert y >= |ns| ==> y !in ns[x].fo;
      assert y >= |ns| ==> y !in multiset(ns[x].fo);
      var n: nat := |ns|;
      assert multiset(ns[x].fo + [n]) == multiset(ns[x].fo) + multiset{n};
    }
  }

  lemma OpenedFanins(ns: seq<BnNode>, a: nat, b: nat, f: Func, x: nat, y: nat)
    requires InRange(ns) && a < |ns| && b < |ns| && a != b && y <= |ns|
    ensures multiset(Opened(ns, a, b, f)[y].fi)[x] ==
      if x < |ns| && y < |ns| then multiset(ns[y].fi)[x] else One(y == |ns| && (x == a || x == b))
  {
    OpenedShape(ns, a, b, f);
    hide Opened;
    if y < |ns| {
      assert x >= |ns| ==> x !in ns[y].fi;
      assert x >= |ns| ==> x !in multiset(ns[y].fi);
    } else {
      assert multiset([a, b]) == multiset{a, b};
    }
  }

  lemma StartMoving(ns: seq<BnNode>, a: nat, b: nat, f: Func)
    requires Valid(ns) && a < |ns| && b < |ns| && a != b
    ensures Moving(ns, Opened(ns, a, b, f), a, b, f, ns[b].fo)
  {
    OpenedMirror(ns, a, b, f);
    OpenedShape(ns, a, b, f);
    hide Opened, Mirror;
    forall g | g in ns[b].fo ensures g < |ns| && g != b {
      NotOwnFanout(ns, b);
    }
  }

  lemma NotOwnFanout(ns: seq<BnNode>, b: nat)
    requires Valid(ns) && b < |ns|
    ensures b !in ns[b].fo
  {
    var rank: seq<nat> :| Ranks(ns, rank);
    MirrorAt(ns, b, b);
    forall x | x in ns[b].fi ensures x != b && rank[x] < rank[b] {
    }
    assert b !in ns[b].fi;
    assert b !in multiset(ns[b].fi);
    assert b !in multiset(ns[b].fo);
  }

  lemma MoveStep(ns0: seq<BnNode>, ns: seq<BnNode>, a: nat, b: nat, f: Func, g: nat, todo: seq<nat>)
    requires Moving(ns0, ns, a, b, f, [g] + todo)
    ensures g < |ns0| && Moving(ns0, Moved(ns, b, |ns0|, g), a, b, f, todo)
  {
    var n: nat := |ns0|;
    assert g in [g] + todo;
    assert ([g] + todo + [n])[0] == g && ([g] + todo + [n])[1..] == todo + [n];
    assert forall x :: x in todo ==> x in [g] + todo;
    MovedMirror(ns, b, n, g);
    MovedShape(ns, b, n, g);
    SameOnesStep(ns0[g].fi, ns[g].fi, b, n);
    RemoveBag(ns[g].fi + [n], b);
    assert MayRead(ns0[g], b, b, n) by {
      assert b in ns[g].fi;
    }
    MovedSame(ns0, ns, b, g);
  }

  lemma MovedSame(ns0: seq<BnNode>, ns: seq<BnNode>, b: nat, g: nat)
    requires |ns| == |ns0| + 1 && b < |ns0| && g < |ns0| && g != b && SameNodes(ns0, ns, b)
    requires SameOnes(ns0[g].fi, Remove(ns[g].fi + [|ns0|], b), b, |ns0|) && b in ns[g].fi
    requires forall y :: y in Remove(ns[g].fi + [|ns0|], b) ==> y in ns[g].fi + [|ns0|]
    ensures SameNodes(ns0, Moved(ns, b, |ns0|, g), b)
  {
    var n: nat := |ns0|;
    MovedShape(ns, b, n, g);
    hide Moved, Remove, SameOnes;
    assert MayRead(ns0[g], b, b, n);
  }

  lemma DoneMoving(ns0: seq<BnNode>, ns: seq<BnNode>, a: nat, b: nat, f: Func)
    requires Moving(ns0, ns, a, b, f, []) && InRange(ns0)
    ensures Inserted(ns0, ns, a, b, f)
  {
    var n: nat := |ns0|;
    forall g: nat, x | g < n && x in ns[g].fi ensures Reads(ns0[g], x, b, n) {
      MirrorAt(ns, b, g);
      assert g !in multiset(ns[b].fo);
      assert b !in multiset(ns[g].fi);
      assert MayRead(ns0[g], x, b, n);
    }
  }

  /** A new primary input has no connections. */
  lemma AddedInput(ns: seq<BnNode>)
    requires Valid(ns)
    ensures Valid(ns + [BnNode(PI, Buf, [], [])])
  {
    var pi := BnNode(PI, Buf, [], []);
    var ns' := ns + [pi];
    var rank: seq<nat> :| Ranks(ns, rank);
    assert Ranks(ns', rank + [0]);
    forall x: nat, y: nat | x < |ns'| && y < |ns'|
      ensures multiset(ns'[x].fo)[y] == multiset(ns'[y].fi)[x]
    {
      if x == |ns| && y < |ns| {
        assert x !in ns[y].fi;
        assert x !in multiset(ns[y].fi);
      } else if y == |ns| && x < |ns| {
        assert y !in ns[x].fo;
        assert y !in multiset(ns[x].fo);
      } else if x < |ns| && y < |ns| {
        MirrorAt(ns, x, y);
      }
    }
  }

  // ----- the whole of an insertion -----

  /** The fanouts `gs` of `b` go to `n`, one occurrence at a time. */
  function MovedAll(ns: seq<BnNode>, b: nat, n: nat, gs: seq<nat>): (r: seq<BnNode>)
    ensures |r| == |ns|
  {
    if gs == [] then ns
    else
      var r := MovedAll(ns, b, n, gs[..|gs| - 1]);
      var g := gs[|gs| - 1];
      if b < |r| && n < |r| && g < |r| then Moved(r, b, n, g) else r
  }

  lemma NothingMoved(ns0: seq<BnNode>, ns: seq<BnNode>, a: nat, b: nat, f: Func, gs: seq<nat>)
    requires |ns| == |ns0| + 1 && Moving(ns0, ns, a, b, f, gs)
    ensures b < |ns0| && gs[0..] == gs && MovedAll(ns, b, |ns0|, gs[..0]) == ns
  {
  }

  lemma MovedAllStep(ns: seq<BnNode>, b: nat, n: nat, gs: seq<nat>, i: nat)
    requires i < |gs| && b < |ns| && n < |ns| && gs[i] < |ns|
    ensures MovedAll(ns, b, n, gs[..i + 1]) == Moved(MovedAll(ns, b, n, gs[..i]), b, n, gs[i])
  {
    hide Moved;
    assert gs[..i + 1][..i] == gs[..i];
  }

  /** A new key input, and its gate of kind `f` behind `b`. */
  function WithKeyGate(ns: seq<BnNode>, b: nat, f: Func): seq<BnNode> {
    if b < |ns| then
      MovedAll(Opened(ns + [BnNode(PI, Buf, [], [])], |ns|, b, f), b, |ns| + 1, ns[b].fo)
    else ns
  }

  lemma KeyGateAt(ns: seq<BnNode>, b: nat, f: Func)
    requires b < |ns|
    ensures WithKeyGate(ns, b, f) == MovedAll(Opened(ns + [BnNode(PI, Buf, [], [])], |ns|, b, f), b, |ns| + 1, ns[b].fo)
    ensures |WithKeyGate(ns, b, f)| == |ns| + 2
  {
  }

  lemma EncryptedValid(ns0: seq<BnNode>, ns: seq<BnNode>, keys: seq<nat>, fs: seq<Func>)
    requires Encrypted(ns0, ns, keys, fs)
    ensures Valid(ns)
  {
  }

  /** An xor key gate behind each of `bs` in turn. */
  function DenseAll(ns: seq<BnNode>, bs: seq<nat>): seq<BnNode> {
    if bs == [] then ns else WithKeyGate(DenseAll(ns, bs[..|bs| - 1]), bs[|bs| - 1], Xor)
  }

  /** For each of `bs` in turn a key gate behind its first fanin and one behind itself, of the kinds `fs`. */
  function TreeAll(ns: seq<BnNode>, bs: seq<nat>, fs: seq<Func>): seq<BnNode>
    requires |fs| == 2 * |bs|
  {
    if bs == [] then ns
    else
      var i := |bs| - 1;
      TreeStep(TreeAll(ns, bs[..i], fs[..2 * i]), bs[i], fs[2 * i], fs[2 * i + 1])
  }

  function TreeStep(ns: seq<BnNode>, b: nat, f1: Func, f2: Func): seq<BnNode> {
    if b < |ns| && ns[b].fi != [] then WithKeyGate(WithKeyGate(ns, ns[b].fi[0], f1), b, f2) else ns
  }

  lemma DenseStep(ns: seq<BnNode>, bs: seq<nat>, i: nat)
    requires i < |bs|
    ensures DenseAll(ns, bs[..i + 1]) == WithKeyGate(DenseAll(ns, bs[..i]), bs[i], Xor)
  {
    assert bs[..i + 1][..i] == bs[..i];
  }

  lemma NoTree(ns: seq<BnNode>, bs: seq<nat>)
    ensures TreeAll(ns, bs[..0], []) == ns && DenseAll(ns, bs[..0]) == ns
  {
  }

  lemma TreeMore(ns: seq<BnNode>, bs: seq<nat>, fs: seq<Func>, i: nat, f1: Func, f2: Func)
    requires i < |bs| && |fs| == 2 * i
    ensures TreeAll(ns, bs[..i + 1], fs + [f1] + [f2]) == TreeStep(TreeAll(ns, bs[..i], fs), bs[i], f1, f2)
  {
    hide TreeStep;
    assert bs[..i + 1][..i] == bs[..i] && (fs + [f1] + [f2])[..2 * i] == fs;
  }

  class BnNtk {
    var nodes: seq<BnNode>
    var pis: seq<nat>
    var cost: int
    var quota: int

    /** `addCost` for the functions of inserted gates and for inputs. */
    method AddCost(f: Func, num: int)
      modifies this`cost
      ensures cost == old(cost) + (match f
        case And | Or | Nor | Nand => num - 1
        case Not | Buf => 1
        case Xor | Xnor => 3
        case Mux => 0)
    {
      if f == And || f == Or || f == Nor || f == Nand {
        cost := cost + num - 1;
      } else if f == Not || f == Buf {
        cost := cost + 1;
      } else if f == Xor || f == Xnor {
        cost := cost + 3;
      }
    }

    method AddPI() returns (a: nat)
      modifies this`nodes, this`pis, this`cost
      ensures a == |old(nodes)| && nodes == old(nodes) + [BnNode(PI, Buf, [], [])]
      ensures pis == old(pis) + [a] && cost == old(cost) + 1
    {
      a := |nodes|;
      nodes := nodes + [BnNode(PI, Buf, [], [])];
      pis := pis + [a];
      AddCost(Buf, 1);
    }

    /** The gate over the key `a` and node `b` takes over the fanouts of `b`, one occurrence at a time. */
    method InsertGate(a: nat, b: nat, f: Func)
      requires Valid(nodes) && a < |nodes| && b < |nodes| && a != b && nodes[a].fi == [] == nodes[a].fo && KeyGate(f)
      modifies this`nodes, this`cost
      ensures Valid(nodes) && Inserted(old(nodes), nodes, a, b, f)
      ensures nodes == MovedAll(Opened(old(nodes), a, b, f), b, |old(nodes)|, old(nodes)[b].fo)
      ensures cost == old(cost) + if f == And || f == Or then 1 else 3
    {
      ghost var ns := nodes;
      var gateFO := nodes[b].fo;
      StartMoving(ns, a, b, f);
      hide Moving, Moved, MovedAll, Valid, Opened, Inserted;
      OpenGate(a, b, f);
      MoveFanouts(ns, a, b, f, gateFO);
      StillValid(ns, nodes, a, b, f);
      AddCost(f, 2);
    }

    /** A new key input and its gate behind `b`. */
    method InsertKey(
        b: nat, f: Func, ghost ns0: seq<BnNode>, ghost keys: seq<nat>, ghost fs: seq<Func>) returns (a: nat)
      requires Encrypted(ns0, nodes, keys, fs) && b < |nodes| && KeyGate(f)
      modifies this
      ensures a == |old(nodes)| && Encrypted(ns0, nodes, keys + [a], fs + [f])
      ensures pis == old(pis) + [a] && cost == old(cost) + 1 + Price(f) && quota == old(quota) && |nodes| == a + 2
      ensures nodes == WithKeyGate(old(nodes), b, f)
    {
      hide MovedAll, Opened, Valid, Encrypted, Inserted, WithKeyGate;
      ghost var ns := nodes;
      EncryptedValid(ns0, ns, keys, fs);
      AddedInput(ns);
      KeyGateAt(ns, b, f);
      a := AddPI();
      InsertGate(a, b, f);
      RunStep(ns0, ns, nodes, keys, fs, b, f);
    }

    /**
     `denseInsert`: an xor gate behind each of the first `num` nodes of the sorted list,
     until the quota is used up.  The dice are thrown, but their choice is not used.
     */
    method DenseInsert(num: nat, dense: seq<nat>) returns (ghost keys: seq<nat>)
      requires Valid(nodes) && num <= |dense| && forall b :: b in dense ==> b < |nodes|
      modifies this
      ensures Valid(nodes) && Preserves(old(nodes), nodes, keys, seq(|keys|, _ => false))
      ensures pis == old(pis) + keys && |keys| <= num && cost == old(cost) + 4 * |keys|
      ensures |keys| < num ==> |keys| > 0 && quota < 3
      ensures forall i: nat :: i + 1 < |keys| ==> QuotaAfter(old(quota), i) >= 3
      ensures |keys| == 0 ==> quota == old(quota)
      ensures |keys| > 0 ==> var q := old(quota) - 3 * (|keys| - 1); quota == if q < 3 then q else q - 3
      ensures nodes == DenseAll(old(nodes), dense[..|keys|])
    {
      hide Encrypted, Preserves, KeyBits, WithKeyGate, DenseAll;
      ghost var ns0, fs := nodes, [];
      keys := [];
      StartRun(nodes);
      NoTree(nodes, dense);
      hide Valid;
      for i := 0 to num
        invariant Encrypted(ns0, nodes, keys, fs) && |keys| == |fs| == i && forall k :: 0 <= k < i ==> fs[k] == Xor
        invariant |nodes| >= |ns0| && pis == old(pis) + keys && cost == old(cost) + 4 * i && quota == old(quota) - 3 * i
        invariant nodes == DenseAll(ns0, dense[..i])
        invariant i > 0 ==> QuotaAfter(old(quota), i - 1) >= 3
        invariant forall k: nat :: k + 1 < i ==> QuotaAfter(old(quota), k) >= 3
      {
        assert dense[i] in dense;
        DenseStep(ns0, dense, i);
        var a := InsertKey(dense[i], Xor, ns0, keys, fs);
        keys, fs := keys + [a], fs + [Xor];
        if quota < 3 {
          XorKeys(i + 1, fs);
          RunDone(ns0, nodes, keys, fs);
          return;
        } else {
          quota := quota - 3;
        }
      }
      XorKeys(num, fs);
      RunDone(ns0, nodes, keys, fs);
    }

    /**
     `treeEncryption`: for each node of the sorted list a gate behind its first fanin and
     one behind the node itself, of random kinds, until the quota is used up.
     */
    method TreeEncryption(num: nat, dense: seq<nat>, dice: seq<nat>) returns (ghost keys: seq<nat>, ghost fs: seq<Func>)
      requires Valid(nodes) && |dice| >= 2 * num
      requires forall b :: b in dense ==> b < |nodes| && nodes[b].fi != []
      modifies this
      ensures Valid(nodes) && Preserves(old(nodes), nodes, keys, KeyBits(fs)) && |keys| == |fs|
      ensures pis == old(pis) + keys && |keys| % 2 == 0 && |keys| <= 2 * num && |keys| <= 2 * |dense|
      ensures |fs| <= |dice| && forall k :: 0 <= k < |fs| ==>
        fs[k] == if dice[k] < 25 then And else if dice[k] < 50 then Or else if dice[k] < 75 then Xor else Xnor
      ensures cost + quota == old(cost + quota) + |keys| && quota == old(quota) - Spent(fs)
      ensures quota == old(quota) - |fs| - 2 * XorCount(fs)
      ensures forall i: nat :: 0 < i && 2 * i < |fs| ==> old(quota) - Spent(fs[..2 * i]) >= 6
      ensures quota < 6 || |keys| == 2 * num || |keys| == 2 * |dense|
      ensures nodes == TreeAll(old(nodes), dense[..|keys| / 2], fs)
    {
      hide Encrypted, Choice, Preserves, KeyBits, Price, Chosen, TreeStep, TreeAll, Spent, XorCount;
      ghost var ns0 := nodes;
      keys, fs := [], [];
      NoneChosen(dice);
      StartRun(nodes);
      NoTree(nodes, dense);
      hide Valid;
      for i := 0 to num
        invariant Encrypted(ns0, nodes, keys, fs) && |keys| == |fs| == 2 * i && i <= |dense| && |nodes| >= |ns0|
        invariant pis == old(pis) + keys && cost + quota == old(cost + quota) + |keys|
        invariant Chosen(fs, dice) && nodes == TreeAll(ns0, dense[..i], fs)
        invariant quota == old(quota) - Spent(fs) && Lasted(old(quota), fs, i) && (i > 0 ==> quota >= 6)
      {
        if i >= |dense| {
          RunDone(ns0, nodes, keys, fs);
          ChosenIs(fs, dice);
          return;
        }
        var b := dense[i];
        assert b in dense;
        TreeMore(ns0, dense, fs, i, Choice(dice[2 * i]), Choice(dice[2 * i + 1]));
        ghost var more := TreeRound(b, Choice(dice[2 * i]), Choice(dice[2 * i + 1]), ns0, keys, fs);
        ChosenStep(fs, dice);
        LastedStep(old(quota), fs, i, Choice(dice[2 * i]), Choice(dice[2 * i + 1]));
        keys, fs := keys + more, fs + [Choice(dice[2 * i])] + [Choice(dice[2 * i + 1])];
        if quota < 6 || num == 0 {
          RunDone(ns0, nodes, keys, fs);
          ChosenIs(fs, dice);
          return;
        }
      }
      RunDone(ns0, nodes, keys, fs);
      ChosenIs(fs, dice);
    }

    /** The fanouts `gateFO` of `b` go to the new gate. */
    method MoveFanouts(ghost ns: seq<BnNode>, ghost a: nat, b: nat, ghost f: Func, gateFO: seq<nat>)
      requires |nodes| > 0 && |nodes| == |ns| + 1 && Moving(ns, nodes, a, b, f, gateFO)
      modifies this`nodes
      ensures |nodes| == |ns| + 1 && Moving(ns, nodes, a, b, f, [])
      ensures nodes == MovedAll(old(nodes), b, |ns|, gateFO)
    {
      hide Moving, Moved, MovedAll;
      var n: nat := |nodes| - 1;
      ghost var ns1 := nodes;
      NothingMoved(ns, ns1, a, b, f, gateFO);
      for i := 0 to |gateFO|
        invariant |nodes| == n + 1 && Moving(ns, nodes, a, b, f, gateFO[i..])
        invariant nodes == MovedAll(ns1, b, n, gateFO[..i])
      {
        var g := gateFO[i];
        assert gateFO[i..] == [g] + gateFO[i + 1..];
        MoveStep(ns, nodes, a, b, f, g, gateFO[i + 1..]);
        MovedAllStep(ns1, b, n, gateFO, i);
        MoveFanout(b, n, g);
      }
      assert gateFO[|gateFO|..] == [] && gateFO[..|gateFO|] == gateFO;
    }

    /** The new gate and its two fanins. */
    method OpenGate(a: nat, b: nat, f: Func)
      requires a < |nodes| && b < |nodes|
      modifies this`nodes
      ensures nodes == Opened(old(nodes), a, b, f)
    {
      var n: nat := |nodes|;
      nodes := nodes + [BnNode(Internal, f, [a, b], [])];
      nodes := nodes[a := nodes[a].(fo := nodes[a].fo + [n])];
      nodes := nodes[b := nodes[b].(fo := nodes[b].fo + [n])];
    }

    /** One round of `treeEncryption`: a key gate behind the first fanin of `b`, one behind `b`. */
    method TreeRound(b: nat, f1: Func, f2: Func, ghost ns0: seq<BnNode>, ghost keys0: seq<nat>, ghost fs: seq<Func>)
      returns (ghost keys: seq<nat>)
      requires Encrypted(ns0, nodes, keys0, fs) && b < |ns0| <= |nodes| && ns0[b].fi != [] && KeyGate(f1) && KeyGate(f2)
      modifies this
      ensures Encrypted(ns0, nodes, keys0 + keys, fs + [f1] + [f2]) && |keys| == 2 && |nodes| >= |ns0|
      ensures pis == old(pis) + keys && cost + quota == old(cost + quota) + 2
      ensures quota == old(quota) - Price(f1) - Price(f2)
      ensures nodes == TreeStep(old(nodes), b, f1, f2)
    {
      hide Encrypted, KeyGate, WithKeyGate;
      FirstFanin(ns0, nodes, keys0, fs, b);
      quota := quota - Price(f1);
      var a1 := InsertKey(nodes[b].fi[0], f1, ns0, keys0, fs);
      quota := quota - Price(f2);
      var a2 := InsertKey(b, f2, ns0, keys0 + [a1], fs + [f1]);
      keys := [a1, a2];
      assert keys0 + keys == keys0 + [a1] + [a2];
    }

    /** One occurrence of `b` among the fanins of `g` becomes the new gate `n`. */
    method MoveFanout(b: nat, n: nat, g: nat)
      requires b < |nodes| && n < |nodes| && g < |nodes|
      modifies this`nodes
      ensures nodes == Moved(old(nodes), b, n, g)
    {
      nodes := nodes[b := nodes[b].(fo := Remove(nodes[b].fo, g))];
      nodes := nodes[g := nodes[g].(fi := nodes[g].fi + [n])];
      nodes := nodes[g := nodes[g].(fi := Remove(nodes[g].fi, b))];
      nodes := nodes[n := nodes[n].(fo := nodes[n].fo + [g])];
    }
  }

  lemma NoneChosen(dice: seq<nat>)
    ensures Chosen([], dice) && Spent([]) == 0
  {
  }

  lemma ChosenIs(fs: seq<Func>, dice: seq<nat>)
    requires Chosen(fs, dice)
    ensures |fs| <= |dice| && forall k :: 0 <= k < |fs| ==>
      fs[k] == if dice[k] < 25 then And else if dice[k] < 50 then Or else if dice[k] < 75 then Xor else Xnor
    ensures Spent(fs) == |fs| + 2 * XorCount(fs)
  {
    SpentCounts(fs);
  }

  /** Of the first `n` rounds, all but the last left a quota of 6 or more. */
  ghost predicate Lasted(quota: int, fs: seq<Func>, n: nat) {
    |fs| == 2 * n && forall i: nat :: 0 < i < n ==> quota - Spent(fs[..2 * i]) >= 6
  }

  lemma LastedStep(quota: int, fs: seq<Func>, n: nat, f1: Func, f2: Func)
    requires Lasted(quota, fs, n) && (n > 0 ==> quota - Spent(fs) >= 6)
    ensures Lasted(quota, fs + [f1] + [f2], n + 1) && Spent(fs + [f1] + [f2]) == Spent(fs) + Price(f1) + Price(f2)
  {
    hide Price;
    var t := fs + [f1] + [f2];
    assert t[..|t| - 1] == fs + [f1] && (fs + [f1])[..|fs|] == fs;
    forall i: nat | 0 < i < n + 1
      ensures quota - Spent(t[..2 * i]) >= 6
    {
      assert t[..2 * i] == fs[..2 * i];
      assert i == n ==> fs[..2 * i] == fs;
    }
  }

  lemma ChosenStep(fs: seq<Func>, dice: seq<nat>)
    requires Chosen(fs, dice) && |fs| + 2 <= |dice|
    ensures Chosen(fs + [Choice(dice[|fs|])] + [Choice(dice[|fs| + 1])], dice)
  {
  }

  lemma XorKeys(n: nat, fs: seq<Func>)
    requires |fs| == n && forall i :: 0 <= i < n ==> fs[i] == Xor
    ensures KeyBits(fs) == seq(n, _ => false)
  {
  }

  lemma RunDone(ns0: seq<BnNode>, ns: seq<BnNode>, keys: seq<nat>, fs: seq<Func>)
    requires Encrypted(ns0, ns, keys, fs)
    ensures Valid(ns) && Preserves(ns0, ns, keys, KeyBits(fs))
  {
  }

  lemma FirstFanin(ns0: seq<BnNode>, ns: seq<BnNode>, keys: seq<nat>, fs: seq<Func>, b: nat)
    requires Encrypted(ns0, ns, keys, fs) && b < |ns0| && ns0[b].fi != []
    ensures |ns0| <= |ns| && ns[b].fi != [] && ns[b].fi[0] < |ns|
  {
    assert ns[b].fi[0] in ns[b].fi;
  }

  lemma StillValid(ns: seq<BnNode>, ns': seq<BnNode>, a: nat, b: nat, f: Func)
    requires KeyGate(f) && Valid(ns) && Moving(ns, ns', a, b, f, []) && a != b && a < |ns| && ns[a].fi == [] == ns[a].fo
    ensures Inserted(ns, ns', a, b, f) && Valid(ns')
  {
    DoneMoving(ns, ns', a, b, f);
    InsertedAcyclic(ns, ns', a, b, f);
  }
}
