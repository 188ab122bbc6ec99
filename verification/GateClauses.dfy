/**
 The clause providers of `sat.h`: the clauses that make an output variable equal
 to a gate function of input variables.  A provider is a template over the
 clause consumer; here it returns the clauses in the order it adds them.
 */
module GateClauses {
  import opened Cnf
  import opened Netlist

  /** `cls` hold exactly when `y` has the value of `f` on the variables `ins`. */
  ghost predicate Encodes(f: Func, ins: seq<nat>, y: nat, cls: seq<Clause>)
    requires ArityOk(f, |ins|)
  {
    && (forall m :: Sat(m, cls) <==> Bit(m, y) == Apply(f, Vals(m, ins)))
    && (forall c :: c in cls ==> c != [])
    && (forall c, l :: c in cls && l in c ==> l.v == y || l.v in ins)
  }

  /**
   and, or, nand and nor: one clause per input linking it to the output, and one
   long clause built by overwriting `xs` in place.  `inNeg` and `outNeg` are the
   signs of the input and output literals in the two-literal clauses.
   */
  method MonotoneProvider(ins: seq<nat>, y: nat, inNeg: bool, outNeg: bool) returns (cls: seq<Clause>)
    ensures forall m :: Sat(m, cls) <==>
      (Holds(m, Lit(y, !outNeg)) <==> forall j :: 0 <= j < |ins| ==> Holds(m, Lit(ins[j], inNeg)))
    ensures forall c :: c in cls ==> c != []
    ensures forall c, l :: c in cls && l in c ==> l.v == y || l.v in ins
  {
    cls := [];
    var xs := seq(|ins| + 1, _ => MkLit(y));
    var i := 0;
    while i != |ins|
      invariant 0 <= i <= |ins| && |xs| == |ins| + 1
      invariant forall m :: Sat(m, cls) <==>
        forall j :: 0 <= j < i ==> Holds(m, Lit(y, outNeg)) || Holds(m, Lit(ins[j], inNeg))
      invariant forall j :: 0 <= j < i ==> xs[j] == Lit(ins[j], !inNeg)
      invariant forall c :: c in cls ==> c != []
      invariant forall c, l :: c in cls && l in c ==> l.v == y || l.v in ins
    {
      var before := cls;
      var short := [Lit(ins[i], inNeg), Lit(y, outNeg)];
      cls := cls + [short];
      forall m
        ensures Sat(m, cls) <==>
          forall j :: 0 <= j < i + 1 ==> Holds(m, Lit(y, outNeg)) || Holds(m, Lit(ins[j], inNeg))
      {
        SatAppend(m, before, [short]);
        assert short[0] in short && short[1] in short;
        assert Sat(m, [short]) <==> SatClause(m, short);
      }
      xs := xs[i := Lit(ins[i], !inNeg)];
      i := i + 1;
    }
    xs := xs[|ins| := Lit(y, !outNeg)];
    var before := cls;
    cls := cls + [xs];
    forall m
      ensures Sat(m, cls) <==>
        (Holds(m, Lit(y, !outNeg)) <==> forall j :: 0 <= j < |ins| ==> Holds(m, Lit(ins[j], inNeg)))
    {
      SatAppend(m, before, [xs]);
      assert Sat(m, [xs]) <==> SatClause(m, xs);
      LongClause(m, xs, ins, y, inNeg, outNeg);
    }
    assert xs[0] in xs;
  }

  lemma LongClause(m: Model, xs: Clause, ins: seq<nat>, y: nat, inNeg: bool, outNeg: bool)
    requires |xs| == |ins| + 1 && xs[|ins|] == Lit(y, !outNeg)
    requires forall j :: 0 <= j < |ins| ==> xs[j] == Lit(ins[j], !inNeg)
    ensures SatClause(m, xs) <==>
      (Holds(m, Lit(y, !outNeg)) || exists j :: 0 <= j < |ins| && !Holds(m, Lit(ins[j], inNeg)))
  {
    assert xs[|ins|] in xs;
    if j :| 0 <= j < |ins| && !Holds(m, Lit(ins[j], inNeg)) {
      assert xs[j] in xs && Holds(m, xs[j]);
    }
  }

  /** xor (`inverted` false) and xnor (`inverted` true). */
  method XorProvider(a: nat, b: nat, y: nat, inverted: bool) returns (cls: seq<Clause>)
    ensures Encodes(if inverted then Xnor else Xor, [a, b], y, cls)
  {
    cls := [
      [MkLit(a), MkLit(b), Lit(y, !inverted)],
      [Lit(a, true), Lit(b, true), Lit(y, !inverted)],
      [MkLit(a), Lit(b, true), Lit(y, inverted)],
      [Lit(a, true), MkLit(b), Lit(y, inverted)]];
    forall m
      ensures Sat(m, cls) <==> Bit(m, y) == Apply(if inverted then Xnor else Xor, Vals(m, [a, b]))
    {
      FourTernary(m, cls);
    }
  }

  /** y = ~s*a + s*b. */
  method MuxProvider(s: nat, a: nat, b: nat, y: nat) returns (cls: seq<Clause>)
    ensures Encodes(Mux, [s, a, b], y, cls)
  {
    cls := [
      [MkLit(s), Lit(a, true), MkLit(y)],
      [Lit(s, true), Lit(b, true), MkLit(y)],
      [MkLit(s), MkLit(a), Lit(y, true)],
      [Lit(s, true), MkLit(b), Lit(y, true)]];
    forall m
      ensures Sat(m, cls) <==> Bit(m, y) == Apply(Mux, Vals(m, [s, a, b]))
    {
      FourTernary(m, cls);
    }
  }

  lemma Ternary(m: Model, c: Clause)
    requires |c| == 3
    ensures SatClause(m, c) <==> AnyHolds(m, c)
  {
    assert c[0] in c && c[1] in c && c[2] in c;
  }

  predicate AnyHolds(m: Model, c: Clause)
    requires |c| == 3
  {
    Holds(m, c[0]) || Holds(m, c[1]) || Holds(m, c[2])
  }

  lemma FourTernary(m: Model, cls: seq<Clause>)
    requires |cls| == 4 && forall i :: 0 <= i < 4 ==> |cls[i]| == 3
    ensures Sat(m, cls) <==>
      AnyHolds(m, cls[0]) && AnyHolds(m, cls[1]) && AnyHolds(m, cls[2]) && AnyHolds(m, cls[3])
  {
    forall i | 0 <= i < 4
      ensures SatClause(m, cls[i]) <==> AnyHolds(m, cls[i])
    {
      Ternary(m, cls[i]);
    }
    assert forall i :: 0 <= i < 4 ==> cls[i] in cls;
  }

  /** `get_provider` and `add_clauses`: a buffer is a one-input and, an inverter a one-input nand. */
  method AddClauses(f: Func, ins: seq<nat>, y: nat) returns (cls: seq<Clause>)
    requires Providable(f, |ins|)
    ensures Encodes(f, ins, y, cls)
  {
    match f {
      case And | Buf => cls := MonotoneProvider(ins, y, false, true);
      case Or => cls := MonotoneProvider(ins, y, true, false);
      case Nand | Not => cls := MonotoneProvider(ins, y, false, false);
      case Nor => cls := MonotoneProvider(ins, y, true, true);
      case Xor =>
        assert ins == [ins[0], ins[1]];
        cls := XorProvider(ins[0], ins[1], y, false);
      case Xnor =>
        assert ins == [ins[0], ins[1]];
        cls := XorProvider(ins[0], ins[1], y, true);
      case Mux =>
        assert ins == [ins[0], ins[1], ins[2]];
        cls := MuxProvider(ins[0], ins[1], ins[2], y);
    }
    forall m
      ensures Sat(m, cls) <==> Bit(m, y) == Apply(f, Vals(m, ins))
    {
      ValsBits(m, ins);
    }
  }

  lemma ValsBits(m: Model, ins: seq<nat>)
    ensures AllTrue(Vals(m, ins)) <==> forall j :: 0 <= j < |ins| ==> Bit(m, ins[j])
    ensures AnyTrue(Vals(m, ins)) <==> exists j :: 0 <= j < |ins| && Bit(m, ins[j])
  {
    if j :| 0 <= j < |ins| && Bit(m, ins[j]) {
      assert Vals(m, ins)[j];
    }
    if AllTrue(Vals(m, ins)) {
      forall j | 0 <= j < |ins| ensures Bit(m, ins[j]) { assert Vals(m, ins)[j]; }
    }
  }
}
