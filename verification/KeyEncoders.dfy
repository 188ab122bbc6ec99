/**
 The encoders of `toc13enc_t`: and/or gates, xor/xnor gates or multiplexers with a
 fresh key bit each are inserted behind a list of nodes.  However long the list, the
 circuit stays well formed and acyclic and computes the original outputs under the
 recorded key bits, and only what the original computes.
 */
module KeyEncoders {
  import opened Cnf
  import opened Netlist
  import opened Rewriting
  import opened Splice
  import opened Locking
  import opened KeyGates

  /** A node that may be locked; if `invertible`, its function has a complement. */
  ghost predicate Target(s: State, m: nat, invertible: bool) {
    && m < |s.nodes| == |s.isOut| && (s.isOut[m] <==> m in s.outputs)
    && (invertible && s.nodes[m].Gate? ==> s.nodes[m].func != Mux)
  }

  /** `s` is `s0` with as many locks as there are bits in `kv`, and the targets `left` are untouched. */
  ghost predicate Encoded(s0: State, s: State, kv: seq<bool>, left: seq<nat>, invertible: bool) {
    && Valid(s) && Locks(s0, s, kv) && Sized(s0, s, kv)
    && (forall m :: m in left ==> Target(s, m, invertible))
  }

  lemma StartEncoding(s: State, left: seq<nat>, invertible: bool)
    requires Valid(s) && forall m :: m in left ==> Target(s, m, invertible)
    ensures Encoded(s, s, [], left, invertible)
  {
    LocksRefl(s);
  }

  /** A splice behind one node leaves every other one a target. */
  lemma OtherTarget(s: State, n: nat, inv: bool, cells: seq<Node>, m: nat, invertible: bool)
    requires Lockable(s, n, inv) && |cells| >= 2 && Target(s, m, invertible) && m != n
    ensures Target(Keyed(s, n, inv, cells), m, invertible)
  {
    var t := Keyed(s, n, inv, cells);
    if s.isOut[n] {
      ReplacedOutputs(s.outputs, n, |s.nodes| + 1);
      if m in s.outputs {
        var p :| 0 <= p < |s.outputs| && s.outputs[p] == m;
        assert t.outputs[p] == m;
      }
    }
  }

  lemma OthersTargets(s: State, n: nat, inv: bool, cells: seq<Node>, left: seq<nat>, invertible: bool)
    requires Lockable(s, n, inv) && |cells| >= 2 && NoDup([n] + left)
    requires forall m :: m in left ==> Target(s, m, invertible)
    ensures forall m :: m in left ==> Target(Keyed(s, n, inv, cells), m, invertible)
  {
    hide Keyed, Target;
    forall m | m in left
      ensures Target(Keyed(s, n, inv, cells), m, invertible)
    {
      var p :| 0 <= p < |left| && left[p] == m;
      assert ([n] + left)[p + 1] == m && ([n] + left)[0] == n;
      OtherTarget(s, n, inv, cells, m, invertible);
    }
  }

  /** One more lock. */
  lemma EncodeStep(s0: State, s: State, t: State, kv: seq<bool>, v: bool, n: nat, inv: bool, cells: seq<Node>,
      left: seq<nat>, invertible: bool)
    requires Encoded(s0, s, kv, [n] + left, invertible) && NoDup([n] + left) && |cells| >= 2
    requires Lockable(s, n, inv) && t == Keyed(s, n, inv, cells) && Valid(t) && Locks(s, t, [v])
    ensures Encoded(s0, t, kv + [v], left, invertible)
  {
    assert KeysFine(s);
    assert |t.keyInputs| == |s.keyInputs| + 1;
    hide Keyed, Lockable, Locks, Valid, KeysFine;
    LocksTrans(s0, s, t, kv, [v]);
    forall m | m in left ensures Target(s, m, invertible) {
      assert m in [n] + left;
    }
    OthersTargets(s, n, inv, cells, left, invertible);
  }

  lemma FirstTarget(s0: State, s: State, kv: seq<bool>, n: nat, left: seq<nat>, invertible: bool)
    requires Encoded(s0, s, kv, [n] + left, invertible)
    ensures Lockable(s, n, false)
    ensures invertible && s.nodes[n].Gate? ==> s.nodes[n].func != Mux
    ensures invertible && s.nodes[n].Gate? ==> Lockable(s, n, true)
  {
    hide Valid, Locks;
    assert n in [n] + left;
    assert Target(s, n, invertible);
  }

  /** The xor or xnor gate with its inversion is a lock with the key bit `val`. */
  lemma XorStep(s0: State, s: State, t: State, kv: seq<bool>, n: nat, val: bool, xnor: bool, left: seq<nat>)
    requires Encoded(s0, s, kv, [n] + left, true) && NoDup([n] + left)
    requires Lockable(s, n, false) && t == XorKeyed(s, n, val, xnor)
    ensures Encoded(s0, t, kv + [val], left, true)
  {
    FirstTarget(s0, s, kv, n, left, true);
    hide Encoded, Lockable, Keyed, Valid, Locks;
    if val != xnor && !s.nodes[n].Gate? {
      XorInvLocks(s, n, xnor, val);
      EncodeStep(s0, s, t, kv, val, n, false, XorInvCells(s, n, xnor), left, true);
    } else {
      XorLocks(s, n, xnor, val);
      EncodeStep(s0, s, t, kv, val, n, val != xnor, XorCells(s, n, xnor), left, true);
    }
  }

  // ----- what the loops make of the circuit -----

  /** All of `ns` in turn get the xor or xnor gate of `insert_key_gate`. */
  function XorAll(s: State, ns: seq<nat>, vals: seq<bool>, xnors: seq<bool>): State
    requires |ns| == |vals| == |xnors|
  {
    if ns == [] then s
    else
      var i := |ns| - 1;
      var r := XorAll(s, ns[..i], vals[..i], xnors[..i]);
      if Insertable(r, ns[i]) then XorKeyed(r, ns[i], vals[i], xnors[i]) else r
  }

  /** All of `ns` in turn get an and gate if probably 1, an or gate otherwise. */
  function AndOrAll(s: State, ns: seq<nat>, prob: seq<Option<real>>): State {
    if ns == [] then s
    else
      var n := ns[|ns| - 1];
      var r := AndOrAll(s, ns[..|ns| - 1], prob);
      if Insertable(r, n) then Keyed(r, n, false, AndOrCells(r, n, Likely(prob, n))) else r
  }

  /** `t` is `s` after all of `ns` in turn got a multiplexer with a best other input. */
  ghost predicate MuxAll(s: State, t: State, ns: seq<nat>, vals: seq<bool>, prob: seq<Option<real>>)
    requires |ns| == |vals|
    decreases |ns|
  {
    if ns == [] then t == s
    else
      var i := |ns| - 1;
      exists r :: MuxAll(s, r, ns[..i], vals[..i], prob) && MuxLocked(r, t, ns[i], vals[i], prob)
  }

  /** The run came to a node for which no other input makes the multiplexer toggle without closing a cycle. */
  ghost predicate MuxStuck(s: State, ns: seq<nat>, vals: seq<bool>, prob: seq<Option<real>>)
    requires |ns| == |vals|
  {
    exists i: nat, r: State :: i < |ns| && MuxAll(s, r, ns[..i], vals[..i], prob) && NoneToChoose(r, ns[i], prob)
  }

  lemma NothingYet(s: State, ns: seq<nat>, vals: seq<bool>, xnors: seq<bool>, prob: seq<Option<real>>)
    requires |ns| == |vals| == |xnors|
    ensures ns[0..] == ns && vals[..0] == [] && XorAll(s, ns[..0], vals[..0], xnors[..0]) == s
    ensures AndOrAll(s, ns[..0], prob) == s && MuxAll(s, s, ns[..0], vals[..0], prob)
  {
    hide XorKeyed, Keyed, MuxLocked;
  }

  lemma XorAllStep(s: State, ns: seq<nat>, vals: seq<bool>, xnors: seq<bool>, i: nat)
    requires i < |ns| == |vals| == |xnors|
    ensures var r := XorAll(s, ns[..i], vals[..i], xnors[..i]);
      Insertable(r, ns[i]) ==>
        XorAll(s, ns[..i + 1], vals[..i + 1], xnors[..i + 1]) == XorKeyed(r, ns[i], vals[i], xnors[i])
  {
    assert ns[..i + 1][..i] == ns[..i] && vals[..i + 1][..i] == vals[..i] && xnors[..i + 1][..i] == xnors[..i];
  }

  lemma AndOrAllStep(s: State, ns: seq<nat>, prob: seq<Option<real>>, i: nat)
    requires i < |ns|
    ensures var r := AndOrAll(s, ns[..i], prob);
      Insertable(r, ns[i]) ==>
        AndOrAll(s, ns[..i + 1], prob) == Keyed(r, ns[i], false, AndOrCells(r, ns[i], Likely(prob, ns[i])))
  {
    assert ns[..i + 1][..i] == ns[..i];
  }

  lemma MuxAllStep(s: State, r: State, t: State, ns: seq<nat>, vals: seq<bool>, prob: seq<Option<real>>, i: nat)
    requires i < |ns| == |vals| && MuxAll(s, r, ns[..i], vals[..i], prob) && MuxLocked(r, t, ns[i], vals[i], prob)
    ensures MuxAll(s, t, ns[..i + 1], vals[..i + 1], prob)
  {
    hide MuxLocked;
    assert ns[..i + 1][..i] == ns[..i] && vals[..i + 1][..i] == vals[..i];
  }

  class Toc13Enc {
    const ckt: LockCkt
    var keyValues: seq<bool>

    constructor (c: LockCkt)
      ensures ckt == c && keyValues == []
    {
      ckt := c;
      keyValues := [];
    }

    /** One round of `encodeXORs`: a key input and its gate behind `n`. */
    method XorRound(n: nat, val: bool, xnor: bool, ghost s0: State, ghost left: seq<nat>)
      requires Encoded(s0, ckt.St(), keyValues, [n] + left, true) && NoDup([n] + left)
      modifies this, ckt
      ensures keyValues == old(keyValues) + [val] && Encoded(s0, ckt.St(), keyValues, left, true)
      ensures Insertable(old(ckt.St()), n) && ckt.St() == XorKeyed(old(ckt.St()), n, val, xnor)
    {
      ghost var s := ckt.St();
      hide Valid, Lockable, Locks, Target, Encoded, XorKeyed, WithKey, NoDup;
      FirstTarget(s0, s, keyValues, n, left, true);
      var ki := ckt.CreateKeyInput();
      SizedKey(s, ki);
      ckt.InsertKeyGate(n, ki, val, xnor, s);
      XorStep(s0, s, ckt.St(), keyValues, n, val, xnor, left);
      keyValues := keyValues + [val];
    }

    /**
     The loop of `encodeXORs` over the chosen nodes, with the random key bits and kinds
     of gate given.
     */
    method EncodeXors(targets: seq<nat>, vals: seq<bool>, xnors: seq<bool>)
      requires Valid(ckt.St()) && NoDup(targets) && |vals| == |xnors| == |targets|
      requires forall m :: m in targets ==> Target(ckt.St(), m, true)
      modifies this, ckt
      ensures Valid(ckt.St()) && Locks(old(ckt.St()), ckt.St(), keyValues) && keyValues == vals
      ensures ckt.St() == XorAll(old(ckt.St()), targets, vals, xnors)
      ensures NewKinds(old(ckt.St()), ckt.St(), XorKinds(xnors))
    {
      hide Valid, Locks, Target, Encoded, XorAll, XorKeyed, NewKinds, Insertable, NoDup, XorKinds;
      InOld(ckt.St(), targets, true);
      assert xnors[..0] == [] && XorKinds([]) == [];
      keyValues := [];
      ghost var s0 := ckt.St();
      StartEncoding(s0, targets, true);
      NothingYet(s0, targets, vals, xnors, []);
      for i := 0 to |targets|
        invariant keyValues == vals[..i] && Encoded(s0, ckt.St(), keyValues, targets[i..], true)
        invariant ckt.St() == XorAll(s0, targets[..i], vals[..i], xnors[..i])
        invariant NewKinds(s0, ckt.St(), XorKinds(xnors[..i]))
      {
        var n := targets[i];
        ghost var s := ckt.St();
        assert n in targets;
        ghost var left := targets[i + 1..];
        assert targets[i..] == [n] + left;
        TailNoDup(targets, i);
        XorRound(n, vals[i], xnors[i], s0, left);
        XorAllStep(s0, targets, vals, xnors, i);
        XorKindsStep(s0, s, xnors, i, n, vals[i]);
        assert vals[..i] + [vals[i]] == vals[..i + 1];
      }
      assert targets[..|targets|] == targets && vals[..|targets|] == vals && xnors[..|targets|] == xnors;
      assert targets[|targets|..] == [];
      Finished(s0, ckt.St(), keyValues, true);
    }

    /** One round of `encodeIOLTS14`: an and gate with key bit 1 if `n` is probably 1, else an or gate with 0. */
    method AndOrRound(n: nat, prob: seq<Option<real>>, ghost s0: State, ghost kv: seq<bool>, ghost left: seq<nat>)
      requires Encoded(s0, ckt.St(), kv, [n] + left, false) && NoDup([n] + left)
      modifies this, ckt
      ensures keyValues == old(keyValues) + [Likely(prob, n)]
      ensures Encoded(s0, ckt.St(), kv + [Likely(prob, n)], left, false)
      ensures Insertable(old(ckt.St()), n)
      ensures ckt.St() == Keyed(old(ckt.St()), n, false, AndOrCells(old(ckt.St()), n, Likely(prob, n)))
    {
      ghost var s := ckt.St();
      hide Valid, Lockable, Locks, Target, Encoded, Keyed, WithKey, NoDup;
      FirstTarget(s0, s, kv, n, left, false);
      var andGate := n < |prob| && prob[n].Some? && prob[n].value > 0.5;
      var ki := ckt.CreateKeyInput();
      SizedKey(s, ki);
      keyValues := keyValues + [andGate];
      ckt.Insert2InpKeyGate(ki, n, if andGate then And else Or, s);
      AndOrStep(s0, s, ckt.St(), kv, n, andGate, left);
    }

    /** The loop of `encodeIOLTS14` over the chosen nodes; earlier key values stay in the list. */
    method EncodeAndOrs(targets: seq<nat>, prob: seq<Option<real>>) returns (ghost kinds: seq<Func>)
      requires Valid(ckt.St()) && NoDup(targets)
      requires forall m :: m in targets ==> Target(ckt.St(), m, false)
      modifies this, ckt
      ensures |keyValues| == |old(keyValues)| + |targets| && old(keyValues) <= keyValues
      ensures forall i :: 0 <= i < |targets| ==> keyValues[|old(keyValues)| + i] == Likely(prob, targets[i])
      ensures Valid(ckt.St()) && Locks(old(ckt.St()), ckt.St(), keyValues[|old(keyValues)|..])
      ensures ckt.St() == AndOrAll(old(ckt.St()), targets, prob)
      ensures NewKinds(old(ckt.St()), ckt.St(), kinds)
      ensures Suited(kinds, keyValues[|old(keyValues)|..], targets, prob)
    {
      hide Valid, Locks, Target, Encoded, Keyed, AndOrAll, AndOrCells, Insertable, Likely, NoDup, NewKinds,
        MostCorrupting, Suited;
      InOld(ckt.St(), targets, false);
      NoneSuited(targets, prob);
      kinds := [];
      ghost var s0, kv := ckt.St(), [];
      ghost var before := keyValues;
      StartEncoding(s0, targets, false);
      NothingYet(s0, targets, seq(|targets|, _ => false), seq(|targets|, _ => false), prob);
      for i := 0 to |targets|
        invariant keyValues == before + kv && |kv| == i
        invariant forall j :: 0 <= j < i ==> kv[j] == Likely(prob, targets[j])
        invariant Encoded(s0, ckt.St(), kv, targets[i..], false)
        invariant ckt.St() == AndOrAll(s0, targets[..i], prob)
        invariant NewKinds(s0, ckt.St(), kinds) && Suited(kinds, kv, targets[..i], prob)
      {
        var n := targets[i];
        ghost var s := ckt.St();
        ghost var left := targets[i + 1..];
        assert targets[i..] == [n] + left;
        TailNoDup(targets, i);
        AndOrRound(n, prob, s0, kv, left);
        AndOrAllStep(s0, targets, prob, i);
        assert n in targets;
        ChosenStep(s0, s, kinds, kv, targets, prob, i);
        kinds := kinds + [if Likely(prob, n) then And else Or];
        kv := kv + [Likely(prob, n)];
      }
      assert targets[..|targets|] == targets && targets[|targets|..] == [];
      Finished(s0, ckt.St(), kv, false);
      assert keyValues[|before|..] == kv;
    }

    /**
     The loop of `encodeMuxes` over the chosen nodes, with the random key bits given.
     `ok` is false when the assertion that every multiplexer finds another input fails.
     */
    method EncodeMuxes(targets: seq<nat>, vals: seq<bool>, prob: seq<Option<real>>) returns (ok: bool)
      requires Valid(ckt.St()) && NoDup(targets) && |vals| == |targets| && |prob| <= |ckt.nodes|
      requires forall m :: m in targets ==> Target(ckt.St(), m, false) && m < |prob| && prob[m].Some?
      modifies this, ckt
      ensures ok ==> Valid(ckt.St()) && Locks(old(ckt.St()), ckt.St(), keyValues) && keyValues == vals
      ensures ok ==> MuxAll(old(ckt.St()), ckt.St(), targets, vals, prob)
      ensures !ok ==> MuxStuck(old(ckt.St()), targets, vals, prob)
    {
      hide Valid, Lockable, Locks, Target, Encoded, Keyed, MuxLocked, MuxAll, NoneToChoose;
      keyValues := [];
      ghost var s0 := ckt.St();
      StartEncoding(s0, targets, false);
      NothingYet(s0, targets, vals, vals, prob);
      for i := 0 to |targets|
        invariant keyValues == vals[..i] && Encoded(s0, ckt.St(), keyValues, targets[i..], false)
        invariant |prob| <= |ckt.nodes| && MuxAll(s0, ckt.St(), targets[..i], vals[..i], prob)
      {
        var n := targets[i];
        ghost var s, left := ckt.St(), targets[i + 1..];
        assert targets[i..] == [n] + left;
        TailNoDup(targets, i);
        FirstTarget(s0, s, keyValues, n, left, false);
        assert n in targets;
        var found := ckt.LockWithMux(n, vals[i], prob);
        if !found {
          return false;
        }
        MuxStep(s0, s, ckt.St(), keyValues, n, vals[i], prob, left);
        MuxAllStep(s0, s, ckt.St(), targets, vals, prob, i);
        keyValues := keyValues + [vals[i]];
        assert vals[..i] + [vals[i]] == vals[..i + 1];
      }
      assert targets[..|targets|] == targets && vals[..|targets|] == vals && targets[|targets|..] == [];
      Finished(s0, ckt.St(), keyValues, false);
      ok := true;
    }
  }

  function Likely(prob: seq<Option<real>>, n: nat): bool {
    n < |prob| && prob[n].Some? && prob[n].value > 0.5
  }

  // ----- what the choices are for -----

  /** `_get_prob`: the probability that node `n` is 1, -1 where there is none. */
  function ProbOf(prob: seq<Option<real>>, n: nat): real {
    if n < |prob| && prob[n].Some? then prob[n].value else -1.0
  }

  /** The gate gives its node back under the key bit `v`. */
  ghost predicate GivesNode(f: Func, v: bool) {
    (f == And || f == Or) && forall b :: Apply(f, [b, v]) == b
  }

  /** The other key bit changes a node with the value `b`. */
  ghost predicate Changes(f: Func, v: bool, b: bool)
    requires GivesNode(f, v)
  {
    Apply(f, [b, !v]) != b
  }

  /** Under the wrong key bit it changes the node exactly when this has its more probable value. */
  ghost predicate MostCorrupting(f: Func, v: bool, p: real) {
    GivesNode(f, v) && forall b :: Changes(f, v, b) <==> b == (p > 1.0 - p)
  }

  /** The probability that the wrong key bit changes a node that is 1 with probability `p`. */
  ghost function Corruption(f: Func, v: bool, p: real): real
    requires GivesNode(f, v)
  {
    (if Changes(f, v, true) then p else 0.0) + (if Changes(f, v, false) then 1.0 - p else 0.0)
  }

  /** No other gate and key bit corrupt the node with a greater probability. */
  lemma NoneCorruptsMore(f: Func, v: bool, p: real, f': Func, v': bool)
    requires MostCorrupting(f, v, p) && GivesNode(f', v')
    ensures Corruption(f', v', p) <= Corruption(f, v, p)
  {
    PairApply(true, v');
    PairApply(false, v');
    PairApply(true, !v');
    PairApply(false, !v');
    assert Apply(f', [true, v']) && !Apply(f', [false, v']);
  }

  lemma PairApply(b: bool, v: bool)
    ensures Apply(And, [b, v]) == (b && v) && Apply(Or, [b, v]) == (b || v)
  {
    var xs := [b, v];
    assert xs[0] == b && xs[1] == v;
  }

  lemma LikelyCorrupts(prob: seq<Option<real>>, n: nat)
    ensures MostCorrupting(if Likely(prob, n) then And else Or, Likely(prob, n), ProbOf(prob, n))
  {
    forall b, v ensures Apply(And, [b, v]) == (b && v) && Apply(Or, [b, v]) == (b || v) {
      PairApply(b, v);
    }
  }

  /** The new key gates, one behind each new key input, have these functions. */
  ghost predicate NewKinds(s0: State, s: State, kinds: seq<Func>) {
    && |s.keyInputs| == |s0.keyInputs| + |kinds| && |s0.nodes| <= |s.nodes|
    && forall i: nat :: i < |kinds| ==> KindIs(s0, s, s.keyInputs[|s0.keyInputs| + i], kinds[i])
  }

  predicate KindIs(s0: State, s: State, k: nat, f: Func) {
    |s0.nodes| <= k && k + 1 < |s.nodes| && s.nodes[k + 1].Gate? && s.nodes[k + 1].func == f
  }

  /** One more gate behind an old node leaves the kinds of the earlier ones. */
  lemma KindsStep(s0: State, s: State, kinds: seq<Func>, n: nat, inv: bool, cells: seq<Node>)
    requires NewKinds(s0, s, kinds) && Insertable(s, n) && n < |s0.nodes| && |cells| >= 2 && cells[1].Gate?
    ensures NewKinds(s0, Keyed(s, n, inv, cells), kinds + [cells[1].func])
  {
    var t := Keyed(s, n, inv, cells);
    var k: nat := |s.nodes|;
    SplicedAt(s.nodes, s.fanouts[n], n, inv, k + 1, cells, k + 1);
    hide Spliced;
    forall i: nat | i < |kinds|
      ensures KindIs(s0, t, t.keyInputs[|s0.keyInputs| + i], kinds[i])
    {
      var g := s.keyInputs[|s0.keyInputs| + i];
      assert KindIs(s0, s, g, kinds[i]);
      SplicedAt(s.nodes, s.fanouts[n], n, inv, k + 1, cells, g + 1);
    }
  }

  lemma InOld(s: State, targets: seq<nat>, invertible: bool)
    requires forall m :: m in targets ==> Target(s, m, invertible)
    ensures forall m :: m in targets ==> m < |s.nodes|
    ensures NewKinds(s, s, [])
  {
  }

  lemma NoneSuited(targets: seq<nat>, prob: seq<Option<real>>)
    ensures Suited([], [], targets[..0], prob)
  {
  }

  lemma ChosenStep(
      s0: State, s: State, kinds: seq<Func>, kv: seq<bool>, targets: seq<nat>, prob: seq<Option<real>>, i: nat)
    requires i < |targets| && NewKinds(s0, s, kinds) && Suited(kinds, kv, targets[..i], prob)
    requires Insertable(s, targets[i]) && targets[i] < |s0.nodes|
    ensures var v := Likely(prob, targets[i]); var f := if v then And else Or;
      && NewKinds(s0, Keyed(s, targets[i], false, AndOrCells(s, targets[i], v)), kinds + [f])
      && Suited(kinds + [f], kv + [v], targets[..i + 1], prob)
  {
    hide NewKinds, Keyed, MostCorrupting, Likely;
    var v := Likely(prob, targets[i]);
    KindsStep(s0, s, kinds, targets[i], false, AndOrCells(s, targets[i], v));
    LikelyCorrupts(prob, targets[i]);
  }

  function XorKinds(xnors: seq<bool>): (r: seq<Func>)
    ensures |r| == |xnors|
  {
    seq(|xnors|, i requires 0 <= i < |xnors| => if xnors[i] then Xnor else Xor)
  }

  lemma XorKindsStep(s0: State, s: State, xnors: seq<bool>, i: nat, n: nat, val: bool)
    requires i < |xnors| && NewKinds(s0, s, XorKinds(xnors[..i])) && Insertable(s, n) && n < |s0.nodes|
    ensures NewKinds(s0, XorKeyed(s, n, val, xnors[i]), XorKinds(xnors[..i + 1]))
  {
    hide NewKinds, Keyed;
    var kinds := XorKinds(xnors[..i]);
    KindsStep(s0, s, kinds, n, false, XorInvCells(s, n, xnors[i]));
    KindsStep(s0, s, kinds, n, val != xnors[i], XorCells(s, n, xnors[i]));
    assert XorKinds(xnors[..i + 1]) == kinds + [if xnors[i] then Xnor else Xor];
  }

  /** The gate kinds and bits suit the probabilities of the targets. */
  ghost predicate Suited(kinds: seq<Func>, kv: seq<bool>, targets: seq<nat>, prob: seq<Option<real>>) {
    && |kinds| == |kv| == |targets|
    && forall i: nat :: i < |kinds| ==> MostCorrupting(kinds[i], kv[i], ProbOf(prob, targets[i]))
  }

  lemma AndOrStep(s0: State, s: State, t: State, kv: seq<bool>, n: nat, andGate: bool, left: seq<nat>)
    requires Encoded(s0, s, kv, [n] + left, false) && NoDup([n] + left)
    requires Lockable(s, n, false)
    requires t == Keyed(s, n, false, [KeyIn, Gate(if andGate then And else Or, [n, |s.nodes|], false)])
    ensures Encoded(s0, t, kv + [andGate], left, false)
  {
    hide Encoded, Lockable, Keyed, Valid, Locks;
    AndOrLocks(s, n, andGate);
    EncodeStep(s0, s, t, kv, andGate, n, false, AndOrCells(s, n, andGate), left, false);
  }

  lemma MuxStep(s0: State, s: State, t: State, kv: seq<bool>, n: nat, val: bool, prob: seq<Option<real>>,
      left: seq<nat>)
    requires Encoded(s0, s, kv, [n] + left, false) && NoDup([n] + left)
    requires Lockable(s, n, false) && Valid(t) && MuxLocked(s, t, n, val, prob) && Locks(s, t, [val])
    ensures Encoded(s0, t, kv + [val], left, false) && |t.nodes| == |s.nodes| + 2
  {
    hide Encoded, Lockable, Keyed, Valid, Locks;
    var other: nat :| other < |s.nodes| && t == Keyed(s, n, false, MuxCells(s, n, val, other));
    CellAt(s, n, false, MuxCells(s, n, val, other), 1);
    EncodeStep(s0, s, t, kv, val, n, false, MuxCells(s, n, val, other), left, false);
  }

  lemma TailNoDup(targets: seq<nat>, i: nat)
    requires i < |targets| && NoDup(targets)
    ensures NoDup([targets[i]] + targets[i + 1..])
  {
    var r := [targets[i]] + targets[i + 1..];
    forall p, q | 0 <= p < q < |r| ensures r[p] != r[q] {
      assert r[p] == targets[i + p] && r[q] == targets[i + q];
    }
  }

  lemma SizedKey(s: State, ki: nat)
    requires ki == |s.nodes|
    ensures |WithKey(s).nodes| == ki + 1
  {
  }

  lemma Finished(s0: State, s: State, kv: seq<bool>, invertible: bool)
    requires Encoded(s0, s, kv, [], invertible)
    ensures Valid(s) && Locks(s0, s, kv)
  {
  }
}
