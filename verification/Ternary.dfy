/**
 Three-valued evaluation: each node carries an X flag and a shadow value.  A gate
 of any width has the X flag of Kleene's logic on its fanins and the ordinary
 value of the shadow bits.
 */
module Ternary {
  import opened Cnf
  import opened Netlist

  datatype Tern = Tern(x: bool, v: bool)

  ghost predicate AnyX(ts: seq<Tern>) {
    exists i :: 0 <= i < |ts| && ts[i].x
  }

  /** Some input is known to be `b`. */
  ghost predicate AnyKnown(ts: seq<Tern>, b: bool) {
    exists i :: 0 <= i < |ts| && ts[i] == Tern(false, b)
  }

  function Shadows(ts: seq<Tern>): (r: seq<bool>)
    ensures |r| == |ts|
  {
    seq(|ts|, i requires 0 <= i < |ts| => ts[i].v)
  }

  ghost function TApply(f: Func, ts: seq<Tern>): Tern
    requires ArityOk(f, |ts|)
  {
    match f
    case And => Tern(AnyX(ts) && !AnyKnown(ts, false), AllTrue(Shadows(ts)))
    case Nand => Tern(AnyX(ts) && !AnyKnown(ts, false), !AllTrue(Shadows(ts)))
    case Or => Tern(AnyX(ts) && !AnyKnown(ts, true), AnyTrue(Shadows(ts)))
    case Nor => Tern(AnyX(ts) && !AnyKnown(ts, true), !AnyTrue(Shadows(ts)))
    case Xor => Tern(AnyX(ts), Parity(Shadows(ts)))
    case Xnor => Tern(AnyX(ts), !Parity(Shadows(ts)))
    case Not => Tern(ts[0].x, !ts[0].v)
    case Buf => ts[0]
    case Mux =>
      Tern(if ts[0].x then ts[1].x || ts[2].x || ts[1].v != ts[2].v else if ts[0].v then ts[2].x else ts[1].x,
           if ts[0].v then ts[2].v else ts[1].v)
  }

  // ----- one gate -----

  /** The shadow values alone evaluate the gate. */
  lemma ShadowApply(f: Func, ts: seq<Tern>)
    requires ArityOk(f, |ts|)
    ensures TApply(f, ts).v == Apply(f, Shadows(ts))
  {
  }

  /** `w` agrees with the known values of `ts`: it is a completion of the unknown ones. */
  ghost predicate Completes(w: seq<bool>, ts: seq<Tern>) {
    |w| == |ts| && forall i :: 0 <= i < |ts| && !ts[i].x ==> w[i] == ts[i].v
  }

  /** A known gate output is the gate's value under every completion of the unknown inputs. */
  lemma KnownApply(f: Func, ts: seq<Tern>, w: seq<bool>)
    requires ArityOk(f, |ts|) && Completes(w, ts) && !TApply(f, ts).x
    ensures Apply(f, w) == TApply(f, ts).v
  {
    ShadowApply(f, ts);
    match f {
      case And | Nand => KnownAndOr(ts, w, false);
      case Or | Nor => KnownAndOr(ts, w, true);
      case Xor | Xnor => assert w == Shadows(ts);
      case Not | Buf =>
      case Mux =>
    }
  }

  lemma KnownAndOr(ts: seq<Tern>, w: seq<bool>, b: bool)
    requires Completes(w, ts) && (AnyX(ts) ==> AnyKnown(ts, b))
    ensures b ==> AnyTrue(w) == AnyTrue(Shadows(ts))
    ensures !b ==> AllTrue(w) == AllTrue(Shadows(ts))
  {
    if AnyKnown(ts, b) {
      var i :| 0 <= i < |ts| && ts[i] == Tern(false, b);
      assert w[i] == b && Shadows(ts)[i] == b;
    } else {
      assert w == Shadows(ts);
    }
  }

  /** Two completions of the unknown inputs on which the gate's values differ. */
  ghost predicate Contrast(f: Func, ts: seq<Tern>, w: seq<bool>, w': seq<bool>)
    requires ArityOk(f, |ts|)
  {
    Completes(w, ts) && Completes(w', ts) && Apply(f, w) != Apply(f, w')
  }

  /** The completion that gives every unknown input the value `b`. */
  function Filled(ts: seq<Tern>, b: bool): (r: seq<bool>)
    ensures Completes(r, ts)
  {
    seq(|ts|, i requires 0 <= i < |ts| => if ts[i].x then b else ts[i].v)
  }

  /**
   A gate output is unknown exactly if it depends on the unknown inputs: some two completions of
   them give the gate different values.
   */
  lemma KnownExactly(f: Func, ts: seq<Tern>)
    requires ArityOk(f, |ts|)
    ensures TApply(f, ts).x <==> exists w, w' :: Contrast(f, ts, w, w')
  {
    if w, w' :| Contrast(f, ts, w, w') && !TApply(f, ts).x {
      KnownApply(f, ts, w);
      KnownApply(f, ts, w');
    }
    if TApply(f, ts).x {
      var w, w' := Contrasting(f, ts);
    }
  }

  lemma Contrasting(f: Func, ts: seq<Tern>) returns (w: seq<bool>, w': seq<bool>)
    requires ArityOk(f, |ts|) && TApply(f, ts).x
    ensures Contrast(f, ts, w, w')
  {
    w, w' := Filled(ts, true), Filled(ts, false);
    match f {
      case And | Nand =>
        forall i | 0 <= i < |ts| ensures w[i] {
          assert ts[i] == Tern(false, ts[i].v) || ts[i].x;
        }
        var k :| 0 <= k < |ts| && ts[k].x;
        assert !w'[k];
      case Or | Nor =>
        forall i | 0 <= i < |ts| ensures !w'[i] {
          assert ts[i] == Tern(false, ts[i].v) || ts[i].x;
        }
        var k :| 0 <= k < |ts| && ts[k].x;
        assert w[k];
      case Xor | Xnor =>
        var k :| 0 <= k < |ts| && ts[k].x;
        w' := w[k := !w[k]];
        ParityFlip(w, k);
      case Not | Buf =>
      case Mux =>
        if ts[0].x && !ts[1].x && !ts[2].x {
          assert Apply(f, w) == ts[2].v && Apply(f, w') == ts[1].v;
        } else if ts[0].x {
          var k := if ts[1].x then 1 else 2;
          var w0 := Filled(ts, true)[0 := k == 2];
          w, w' := w0[k := true], w0[k := false];
        }
    }
  }

  lemma {:induction false} ParityFlip(w: seq<bool>, k: nat)
    requires k < |w|
    ensures Parity(w[k := !w[k]]) != Parity(w)
  {
    var w', last := w[k := !w[k]], |w| - 1;
    if k == last {
      assert w'[..last] == w[..last];
    } else {
      ParityFlip(w[..last], k);
      assert w'[..last] == w[..last][k := !w[k]];
    }
  }

  /** When nothing is unknown, the shadows decide whether some input is known to have a value. */
  lemma KnownShape(a: seq<Tern>)
    ensures AnyKnown(a, false) ==> !AllTrue(Shadows(a))
    ensures AnyKnown(a, true) ==> AnyTrue(Shadows(a))
    ensures !AnyX(a) && !AllTrue(Shadows(a)) ==> AnyKnown(a, false)
    ensures !AnyX(a) && AnyTrue(Shadows(a)) ==> AnyKnown(a, true)
  {
    if k :| 0 <= k < |a| && a[k] == Tern(false, false) {
      assert !Shadows(a)[k];
    }
    if k :| 0 <= k < |a| && a[k] == Tern(false, true) {
      assert Shadows(a)[k];
    }
    if !AnyX(a) && !AllTrue(Shadows(a)) {
      var k :| 0 <= k < |a| && !Shadows(a)[k];
      assert a[k] == Tern(false, false);
    }
    if !AnyX(a) && AnyTrue(Shadows(a)) {
      var k :| 0 <= k < |a| && Shadows(a)[k];
      assert a[k] == Tern(false, true);
    }
  }

  // ----- a whole netlist -----

  function TVals(t: seq<Tern>, ins: seq<nat>): (r: seq<Tern>)
    ensures |r| == |ins|
  {
    seq(|ins|, k requires 0 <= k < |ins| => if ins[k] < |t| then t[ins[k]] else Tern(false, false))
  }

  ghost predicate NodesShaped(ns: seq<Node>) {
    forall i :: 0 <= i < |ns| ==> GateShape(ns[i], |ns|)
  }

  ghost predicate TGateHolds(ns: seq<Node>, t: seq<Tern>, i: nat)
    requires NodesShaped(ns) && i < |ns| && |t| >= |ns|
  {
    ns[i].Gate? ==> t[i] == TApply(ns[i].func, TVals(t, ns[i].fanins))
  }

  /** `t` gives every node a three-valued value consistently with all gates. */
  ghost predicate IsTVal(ns: seq<Node>, t: seq<Tern>)
    requires NodesShaped(ns)
  {
    |t| == |ns| && forall i :: 0 <= i < |ns| ==> TGateHolds(ns, t, i)
  }

  lemma ShadowsTVals(t: seq<Tern>, ins: seq<nat>)
    ensures Shadows(TVals(t, ins)) == Vals(Shadows(t), ins)
  {
  }

  /** The shadow values of a three-valued valuation form an ordinary valuation. */
  lemma ShadowsAreValuation(c: Ckt, t: seq<Tern>)
    requires WellFormed(c) && IsTVal(c.nodes, t)
    ensures IsVal(c, Shadows(t))
  {
    forall i | 0 <= i < |c.nodes|
      ensures GateHolds(c, Shadows(t), i)
    {
      assert TGateHolds(c.nodes, t, i);
      if c.nodes[i].Gate? {
        ShadowsTVals(t, c.nodes[i].fanins);
        ShadowApply(c.nodes[i].func, TVals(t, c.nodes[i].fanins));
      }
    }
  }

  /** `w` has the known input values of `t`. */
  ghost predicate CompletesInputs(c: Ckt, w: Model, t: seq<Tern>) {
    |w| == |t| == |c.nodes| && forall i :: 0 <= i < |c.nodes| && !c.nodes[i].Gate? && !t[i].x ==> w[i] == t[i].v
  }

  /**
   Soundness over any acyclic netlist: a node whose X flag is off has its shadow
   value in every ordinary valuation that completes the unknown inputs.
   */
  lemma {:induction false} KnownIsSound(c: Ckt, rank: seq<nat>, t: seq<Tern>, w: Model, i: nat)
    requires WellFormed(c) && IsRank(c, rank) && i < |c.nodes|
    requires IsTVal(c.nodes, t) && IsVal(c, w) && CompletesInputs(c, w, t)
    ensures !t[i].x ==> w[i] == t[i].v
    decreases rank[i]
  {
    if c.nodes[i].Gate? && !t[i].x {
      var f := c.nodes[i].fanins;
      forall k | 0 <= k < |f|
        ensures !TVals(t, f)[k].x ==> Vals(w, f)[k] == TVals(t, f)[k].v
      {
        assert f[k] in f;
        KnownIsSound(c, rank, t, w, f[k]);
      }
      assert TGateHolds(c.nodes, t, i) && GateHolds(c, w, i);
      KnownApply(c.nodes[i].func, TVals(t, f), Vals(w, f));
    }
  }
}
