/**
 The two-bit clause encodings of `ternarysat.h`: for each kind of two-input gate
 (and inverter, buffer, multiplexer) the clauses whose models give the output its
 three-valued value; and `init_ternary_solver`, which puts node `i` at the
 variables 2i + 1 (X flag) and 2i + 2 (shadow value).
 */
module TernaryClauses {
  import opened Cnf
  import opened Netlist
  import opened Ternary
  import SatSolver
  import CktCompiler

  /** The three-valued value at variables `u` and `u + 1`. */
  function TernAt(m: Model, u: nat): Tern {
    Tern(Bit(m, u), Bit(m, u + 1))
  }

  function X(u: nat): Lit {
    MkLit(u)
  }

  function V(u: nat): Lit {
    MkLit(u + 1)
  }

  ghost predicate Within(cls: seq<Clause>, hi: nat) {
    forall c, l :: c in cls && l in c ==> l.v < hi
  }

  /** A clause is pushed literal by literal, added, and the buffer cleared. */
  method Add(cls: seq<Clause>, c: Clause) returns (cls': seq<Clause>)
    ensures cls' == cls + [c]
    ensures forall m :: Sat(m, cls') <==> Sat(m, cls) && SatClause(m, c)
  {
    cls' := cls + [c];
    forall m
      ensures Sat(m, cls') <==> Sat(m, cls) && SatClause(m, c)
    {
      SatAppend(m, cls, [c]);
      assert c in [c];
      assert Sat(m, [c]) <==> SatClause(m, c);
    }
  }

  method Add2(cls: seq<Clause>, a: Lit, b: Lit, ghost hi: nat) returns (cls': seq<Clause>)
    requires Within(cls, hi) && a.v < hi && b.v < hi
    ensures Within(cls', hi)
    ensures forall m :: Sat(m, cls') <==> Sat(m, cls) && (Holds(m, a) || Holds(m, b))
  {
    var c := [a, b];
    assert a in c && b in c;
    cls' := Add(cls, c);
  }

  method Add3(cls: seq<Clause>, a: Lit, b: Lit, d: Lit, ghost hi: nat) returns (cls': seq<Clause>)
    requires Within(cls, hi) && a.v < hi && b.v < hi && d.v < hi
    ensures Within(cls', hi)
    ensures forall m :: Sat(m, cls') <==> Sat(m, cls) && (Holds(m, a) || Holds(m, b) || Holds(m, d))
  {
    var c := [a, b, d];
    assert a in c && b in c && d in c;
    cls' := Add(cls, c);
  }

  method Add4(cls: seq<Clause>, a: Lit, b: Lit, d: Lit, e: Lit, ghost hi: nat) returns (cls': seq<Clause>)
    requires Within(cls, hi) && a.v < hi && b.v < hi && d.v < hi && e.v < hi
    ensures Within(cls', hi)
    ensures forall m :: Sat(m, cls') <==>
      Sat(m, cls) && (Holds(m, a) || Holds(m, b) || Holds(m, d) || Holds(m, e))
  {
    var c := [a, b, d, e];
    assert a in c && b in c && d in c && e in c;
    cls' := Add(cls, c);
  }

  method Add5(cls: seq<Clause>, a: Lit, b: Lit, d: Lit, e: Lit, f: Lit, ghost hi: nat) returns (cls': seq<Clause>)
    requires Within(cls, hi) && a.v < hi && b.v < hi && d.v < hi && e.v < hi && f.v < hi
    ensures Within(cls', hi)
    ensures forall m :: Sat(m, cls') <==>
      Sat(m, cls) && (Holds(m, a) || Holds(m, b) || Holds(m, d) || Holds(m, e) || Holds(m, f))
  {
    var c := [a, b, d, e, f];
    assert a in c && b in c && d in c && e in c && f in c;
    cls' := Add(cls, c);
  }

  /** The clauses give `y` the three-valued value of the gate on the inputs at `xs`. */
  ghost predicate TEncodes(f: Func, xs: seq<nat>, y: nat, cls: seq<Clause>, hi: nat)
    requires ArityOk(f, |xs|)
  {
    Within(cls, hi) && forall m :: Sat(m, cls) <==> TernAt(m, y) == TApply(f, TernsAt(m, xs))
  }

  function TernsAt(m: Model, xs: seq<nat>): (ts: seq<Tern>)
    ensures |ts| == |xs|
  {
    seq(|xs|, i requires 0 <= i < |xs| => TernAt(m, xs[i]))
  }

  ghost predicate Room(us: seq<nat>, hi: nat) {
    forall u :: u in us ==> u + 1 < hi
  }

  method AddBuf(a: nat, y: nat, ghost hi: nat) returns (cls: seq<Clause>)
    requires a + 1 < hi && y + 1 < hi
    ensures TEncodes(Buf, [a], y, cls, hi)
  {
    cls := Add2([], Neg(X(a)), X(y), hi);
    cls := Add2(cls, X(a), Neg(X(y)), hi);
    cls := Add2(cls, Neg(V(a)), V(y), hi);
    cls := Add2(cls, V(a), Neg(V(y)), hi);
  }

  method AddNot(a: nat, y: nat, ghost hi: nat) returns (cls: seq<Clause>)
    requires a + 1 < hi && y + 1 < hi
    ensures TEncodes(Not, [a], y, cls, hi)
  {
    cls := Add2([], Neg(X(a)), X(y), hi);
    cls := Add2(cls, X(a), Neg(X(y)), hi);
    cls := Add2(cls, Neg(V(a)), Neg(V(y)), hi);
    cls := Add2(cls, V(a), V(y), hi);
  }

  /** The X flag of an and-like gate whose controlling values are those where `p` or `q` is false. */
  ghost predicate Unknown(m: Model, a: nat, b: nat, p: Lit, q: Lit) {
    (Bit(m, a) && Holds(m, q)) || (Holds(m, p) && Bit(m, b)) || (Bit(m, a) && Bit(m, b))
  }

  /** Three clauses: the output is unknown if it may depend on an unknown input. */
  method RaiseFlag(cls0: seq<Clause>, a: nat, b: nat, y: nat, p: Lit, q: Lit, ghost hi: nat) returns (cls: seq<Clause>)
    requires Within(cls0, hi) && a < hi && b < hi && y < hi && p.v < hi && q.v < hi
    ensures Within(cls, hi)
    ensures forall m :: Sat(m, cls) <==> Sat(m, cls0) && (Unknown(m, a, b, p, q) ==> Bit(m, y))
  {
    cls := Add3(cls0, Neg(X(a)), Neg(q), X(y), hi);
    cls := Add3(cls, Neg(p), Neg(X(b)), X(y), hi);
    cls := Add3(cls, Neg(X(a)), Neg(X(b)), X(y), hi);
  }

  /** Three clauses: and only then. */
  method LowerFlag(cls0: seq<Clause>, a: nat, b: nat, y: nat, p: Lit, q: Lit, ghost hi: nat) returns (cls: seq<Clause>)
    requires Within(cls0, hi) && a < hi && b < hi && y < hi && p.v < hi && q.v < hi
    ensures Within(cls, hi)
    ensures forall m :: Sat(m, cls) <==> Sat(m, cls0) && (Bit(m, y) ==> Unknown(m, a, b, p, q))
  {
    cls := Add3(cls0, X(a), X(b), Neg(X(y)), hi);
    cls := Add3(cls, X(b), q, Neg(X(y)), hi);
    cls := Add3(cls, X(a), p, Neg(X(y)), hi);
  }

  /** The value of an and-like gate: its flag, and its value bit from those of the inputs. */
  lemma AndLike(m: Model, a: nat, b: nat)
    ensures TApply(And, TernsAt(m, [a, b])) == Tern(Unknown(m, a, b, V(a), V(b)), Bit(m, a + 1) && Bit(m, b + 1))
    ensures TApply(Nand, TernsAt(m, [a, b])) == Tern(Unknown(m, a, b, V(a), V(b)), !(Bit(m, a + 1) && Bit(m, b + 1)))
    ensures TApply(Or, TernsAt(m, [a, b])) ==
      Tern(Unknown(m, a, b, Neg(V(a)), Neg(V(b))), Bit(m, a + 1) || Bit(m, b + 1))
    ensures TApply(Nor, TernsAt(m, [a, b])) ==
      Tern(Unknown(m, a, b, Neg(V(a)), Neg(V(b))), !(Bit(m, a + 1) || Bit(m, b + 1)))
  {
    PairValues(a, b);
  }

  lemma XorLike(m: Model, a: nat, b: nat)
    ensures TApply(Xor, TernsAt(m, [a, b])) == Tern(Bit(m, a) || Bit(m, b), Bit(m, a + 1) != Bit(m, b + 1))
    ensures TApply(Xnor, TernsAt(m, [a, b])) == Tern(Bit(m, a) || Bit(m, b), Bit(m, a + 1) == Bit(m, b + 1))
  {
    PairValues(a, b);
  }

  lemma NoClauses(m: Model)
    ensures Sat(m, [])
  {
  }

  method AddAnd(a: nat, b: nat, y: nat, ghost hi: nat) returns (cls: seq<Clause>)
    requires a + 1 < hi && b + 1 < hi && y + 1 < hi
    ensures TEncodes(And, [a, b], y, cls, hi)
  {
    hide Unknown, TApply, TernsAt, Sat;
    cls := RaiseFlag([], a, b, y, V(a), V(b), hi);
    cls := Add3(cls, Neg(V(a)), Neg(V(b)), V(y), hi);
    cls := LowerFlag(cls, a, b, y, V(a), V(b), hi);
    cls := Add2(cls, V(b), Neg(V(y)), hi);
    cls := Add2(cls, V(a), Neg(V(y)), hi);
    forall m
      ensures Sat(m, cls) <==> TernAt(m, y) == TApply(And, TernsAt(m, [a, b]))
    {
      NoClauses(m);
      AndLike(m, a, b);
    }
  }

  method AddNand(a: nat, b: nat, y: nat, ghost hi: nat) returns (cls: seq<Clause>)
    requires a + 1 < hi && b + 1 < hi && y + 1 < hi
    ensures TEncodes(Nand, [a, b], y, cls, hi)
  {
    hide Unknown, TApply, TernsAt, Sat;
    cls := RaiseFlag([], a, b, y, V(a), V(b), hi);
    cls := Add2(cls, V(b), V(y), hi);
    cls := Add2(cls, V(a), V(y), hi);
    cls := LowerFlag(cls, a, b, y, V(a), V(b), hi);
    cls := Add3(cls, Neg(V(a)), Neg(V(b)), Neg(V(y)), hi);
    forall m
      ensures Sat(m, cls) <==> TernAt(m, y) == TApply(Nand, TernsAt(m, [a, b]))
    {
      NoClauses(m);
      AndLike(m, a, b);
    }
  }

  method AddOr(a: nat, b: nat, y: nat, ghost hi: nat) returns (cls: seq<Clause>)
    requires a + 1 < hi && b + 1 < hi && y + 1 < hi
    ensures TEncodes(Or, [a, b], y, cls, hi)
  {
    hide Unknown, TApply, TernsAt, Sat;
    cls := RaiseFlag([], a, b, y, Neg(V(a)), Neg(V(b)), hi);
    cls := Add2(cls, Neg(V(a)), V(y), hi);
    cls := Add2(cls, Neg(V(b)), V(y), hi);
    cls := LowerFlag(cls, a, b, y, Neg(V(a)), Neg(V(b)), hi);
    cls := Add3(cls, V(a), V(b), Neg(V(y)), hi);
    forall m
      ensures Sat(m, cls) <==> TernAt(m, y) == TApply(Or, TernsAt(m, [a, b]))
    {
      NoClauses(m);
      AndLike(m, a, b);
    }
  }

  method AddNor(a: nat, b: nat, y: nat, ghost hi: nat) returns (cls: seq<Clause>)
    requires a + 1 < hi && b + 1 < hi && y + 1 < hi
    ensures TEncodes(Nor, [a, b], y, cls, hi)
  {
    hide Unknown, TApply, TernsAt, Sat;
    cls := RaiseFlag([], a, b, y, Neg(V(a)), Neg(V(b)), hi);
    cls := Add3(cls, V(a), V(b), V(y), hi);
    cls := LowerFlag(cls, a, b, y, Neg(V(a)), Neg(V(b)), hi);
    cls := Add2(cls, Neg(V(a)), Neg(V(y)), hi);
    cls := Add2(cls, Neg(V(b)), Neg(V(y)), hi);
    forall m
      ensures Sat(m, cls) <==> TernAt(m, y) == TApply(Nor, TernsAt(m, [a, b]))
    {
      NoClauses(m);
      AndLike(m, a, b);
    }
  }

  method AddXor(a: nat, b: nat, y: nat, ghost hi: nat) returns (cls: seq<Clause>)
    requires a + 1 < hi && b + 1 < hi && y + 1 < hi
    ensures TEncodes(Xor, [a, b], y, cls, hi)
  {
    hide TApply, TernsAt, Sat;
    cls := Add2([], Neg(X(a)), X(y), hi);
    cls := Add2(cls, Neg(X(b)), X(y), hi);
    cls := Add3(cls, Neg(V(a)), V(b), V(y), hi);
    cls := Add3(cls, V(a), Neg(V(b)), V(y), hi);
    cls := Add3(cls, X(a), X(b), Neg(X(y)), hi);
    cls := Add3(cls, V(a), V(b), Neg(V(y)), hi);
    cls := Add3(cls, Neg(V(a)), Neg(V(b)), Neg(V(y)), hi);
    forall m
      ensures Sat(m, cls) <==> TernAt(m, y) == TApply(Xor, TernsAt(m, [a, b]))
    {
      NoClauses(m);
      XorLike(m, a, b);
    }
  }

  method AddXnor(a: nat, b: nat, y: nat, ghost hi: nat) returns (cls: seq<Clause>)
    requires a + 1 < hi && b + 1 < hi && y + 1 < hi
    ensures TEncodes(Xnor, [a, b], y, cls, hi)
  {
    hide TApply, TernsAt, Sat;
    cls := Add2([], Neg(X(a)), X(y), hi);
    cls := Add2(cls, Neg(X(b)), X(y), hi);
    cls := Add3(cls, V(a), V(b), V(y), hi);
    cls := Add3(cls, Neg(V(a)), Neg(V(b)), V(y), hi);
    cls := Add3(cls, X(a), X(b), Neg(X(y)), hi);
    cls := Add3(cls, Neg(V(a)), V(b), Neg(V(y)), hi);
    cls := Add3(cls, V(a), Neg(V(b)), Neg(V(y)), hi);
    forall m
      ensures Sat(m, cls) <==> TernAt(m, y) == TApply(Xnor, TernsAt(m, [a, b]))
    {
      NoClauses(m);
      XorLike(m, a, b);
    }
  }

  /** The X flag and shadow value of a multiplexer, as bits. */
  ghost predicate MuxFlag(m: Model, s: nat, a: nat, b: nat) {
    if Bit(m, s) then Bit(m, a) || Bit(m, b) || Bit(m, a + 1) != Bit(m, b + 1)
    else if Bit(m, s + 1) then Bit(m, b) else Bit(m, a)
  }

  ghost predicate MuxShadow(m: Model, s: nat, a: nat, b: nat) {
    if Bit(m, s + 1) then Bit(m, b + 1) else Bit(m, a + 1)
  }

  method AddMux(s: nat, a: nat, b: nat, y: nat, ghost hi: nat) returns (cls: seq<Clause>)
    requires s + 1 < hi && a + 1 < hi && b + 1 < hi && y + 1 < hi
    ensures TEncodes(Mux, [s, a, b], y, cls, hi)
  {
    cls := Add4([], Neg(X(s)), Neg(V(a)), V(b), X(y), hi);
    cls := Add3(cls, V(s), Neg(X(a)), X(y), hi);
    cls := Add4(cls, Neg(X(s)), V(a), Neg(V(b)), X(y), hi);
    cls := Add3(cls, Neg(V(s)), Neg(X(b)), X(y), hi);
    cls := Add3(cls, Neg(X(s)), Neg(X(a)), X(y), hi);
    cls := Add3(cls, Neg(X(s)), Neg(X(b)), X(y), hi);
    assert forall m :: Sat(m, cls) <==> (MuxFlag(m, s, a, b) ==> Bit(m, y));
    cls := AddMuxRest(s, a, b, y, cls, hi);
    forall m
      ensures TApply(Mux, TernsAt(m, [s, a, b])) == Tern(MuxFlag(m, s, a, b), MuxShadow(m, s, a, b))
    {
      assert TernsAt(m, [s, a, b]) == [TernAt(m, s), TernAt(m, a), TernAt(m, b)];
    }
  }

  method AddMuxRest(s: nat, a: nat, b: nat, y: nat, cls0: seq<Clause>, ghost hi: nat) returns (cls: seq<Clause>)
    requires s + 1 < hi && a + 1 < hi && b + 1 < hi && y + 1 < hi && Within(cls0, hi)
    ensures Within(cls, hi)
    ensures forall m :: Sat(m, cls) <==>
      Sat(m, cls0) && (Bit(m, y) ==> MuxFlag(m, s, a, b)) && Bit(m, y + 1) == MuxShadow(m, s, a, b)
  {
    cls := Add3(cls0, V(s), Neg(V(a)), V(y), hi);
    cls := Add3(cls, Neg(V(s)), Neg(V(b)), V(y), hi);
    cls := Add5(cls, X(a), V(a), X(b), V(b), Neg(X(y)), hi);
    cls := Add4(cls, X(s), Neg(V(s)), X(b), Neg(X(y)), hi);
    cls := Add5(cls, X(a), Neg(V(a)), X(b), Neg(V(b)), Neg(X(y)), hi);
    cls := Add4(cls, X(s), V(s), X(a), Neg(X(y)), hi);
    cls := Add3(cls, Neg(V(s)), V(b), Neg(V(y)), hi);
    cls := Add3(cls, V(s), V(a), Neg(V(y)), hi);
  }

  /** The aggregates of a two-element list, in every model. */
  lemma PairValues(a: nat, b: nat)
    ensures forall m {:trigger TernsAt(m, [a, b])} ::
      var ts := TernsAt(m, [a, b]);
      && (AnyX(ts) <==> Bit(m, a) || Bit(m, b))
      && (forall k {:trigger AnyKnown(ts, k)} ::
            AnyKnown(ts, k) <==> (!Bit(m, a) && Bit(m, a + 1) == k) || (!Bit(m, b) && Bit(m, b + 1) == k))
      && (AllTrue(Shadows(ts)) <==> Bit(m, a + 1) && Bit(m, b + 1))
      && (AnyTrue(Shadows(ts)) <==> Bit(m, a + 1) || Bit(m, b + 1))
      && (Parity(Shadows(ts)) <==> Bit(m, a + 1) != Bit(m, b + 1))
  {
    forall m: Model
      ensures var ts := TernsAt(m, [a, b]);
        && (AnyX(ts) <==> Bit(m, a) || Bit(m, b))
        && (forall k {:trigger AnyKnown(ts, k)} ::
              AnyKnown(ts, k) <==> (!Bit(m, a) && Bit(m, a + 1) == k) || (!Bit(m, b) && Bit(m, b + 1) == k))
        && (AllTrue(Shadows(ts)) <==> Bit(m, a + 1) && Bit(m, b + 1))
        && (AnyTrue(Shadows(ts)) <==> Bit(m, a + 1) || Bit(m, b + 1))
        && (Parity(Shadows(ts)) <==> Bit(m, a + 1) != Bit(m, b + 1))
    {
      PairOf(TernAt(m, a), TernAt(m, b));
      assert TernsAt(m, [a, b]) == [TernAt(m, a), TernAt(m, b)];
    }
  }

  lemma PairOf(p: Tern, q: Tern)
    ensures AnyX([p, q]) <==> p.x || q.x
    ensures forall k :: AnyKnown([p, q], k) <==> p == Tern(false, k) || q == Tern(false, k)
    ensures AllTrue(Shadows([p, q])) <==> p.v && q.v
    ensures AnyTrue(Shadows([p, q])) <==> p.v || q.v
    ensures Parity(Shadows([p, q])) <==> p.v != q.v
  {
    var ts := [p, q];
    assert ts[0] == p && ts[1] == q;
    var xs := Shadows(ts);
    assert xs[0] == p.v && xs[1] == q.v;
  }

  lemma OneValue(t: Tern)
    ensures TApply(Or, [t]) == t
  {
    var ts := [t];
    assert ts[0] == t && Shadows(ts)[0] == t.v;
  }

  /** The fanin counts `get_ternary_provider` and the providers themselves accept. */
  predicate TernaryArity(f: Func, n: nat) {
    match f
    case And | Nand | Nor | Xor | Xnor => n == 2
    case Or => n == 1 || n == 2
    case Not | Buf => n == 1
    case Mux => n == 3
  }

  /** Dispatch on the gate function; a one-input or is a buffer. */
  method AddTernary(f: Func, xs: seq<nat>, y: nat, ghost hi: nat) returns (cls: seq<Clause>)
    requires TernaryArity(f, |xs|) && Room(xs, hi) && y + 1 < hi
    ensures TEncodes(f, xs, y, cls, hi)
  {
    assert forall i :: 0 <= i < |xs| ==> xs[i] in xs;
    if |xs| == 1 {
      assert xs == [xs[0]];
      if f == Not {
        cls := AddNot(xs[0], y, hi);
      } else {
        cls := AddBuf(xs[0], y, hi);
        forall m ensures TApply(Or, TernsAt(m, xs)) == TApply(Buf, TernsAt(m, xs)) {
          OneValue(TernAt(m, xs[0]));
          assert TernsAt(m, xs) == [TernAt(m, xs[0])];
        }
      }
    } else if |xs| == 2 {
      assert xs == [xs[0], xs[1]];
      match f {
        case And => cls := AddAnd(xs[0], xs[1], y, hi);
        case Or => cls := AddOr(xs[0], xs[1], y, hi);
        case Nand => cls := AddNand(xs[0], xs[1], y, hi);
        case Nor => cls := AddNor(xs[0], xs[1], y, hi);
        case Xor => cls := AddXor(xs[0], xs[1], y, hi);
        case Xnor => cls := AddXnor(xs[0], xs[1], y, hi);
      }
    } else {
      assert xs == [xs[0], xs[1], xs[2]];
      cls := AddMux(xs[0], xs[1], xs[2], y, hi);
    }
  }

  // ----- a whole netlist -----

  function TVar(i: nat): nat {
    2 * i + 1
  }

  function TVars(ins: seq<nat>): (r: seq<nat>)
    ensures |r| == |ins|
  {
    seq(|ins|, k requires 0 <= k < |ins| => TVar(ins[k]))
  }

  /** The three-valued node values in a model. */
  function TNodes(n: nat, m: Model): (t: seq<Tern>)
    ensures |t| == n
  {
    seq(n, i requires 0 <= i < n => TernAt(m, TVar(i)))
  }

  ghost predicate TernaryNodes(ns: seq<Node>) {
    forall i :: 0 <= i < |ns| && ns[i].Gate? ==>
      TernaryArity(ns[i].func, |ns[i].fanins|) && forall j :: j in ns[i].fanins ==> j < |ns|
  }

  ghost predicate ListsGates(ns: seq<Node>, gates: seq<nat>) {
    forall i: nat :: i in gates <==> i < |ns| && ns[i].Gate?
  }

  ghost predicate TGatesHoldTo(ns: seq<Node>, t: seq<Tern>, gates: seq<nat>, n: nat)
    requires NodesShaped(ns) && n <= |gates| && |t| >= |ns| && ListsGates(ns, gates)
  {
    forall k :: 0 <= k < n ==> gates[k] in gates && TGateHolds(ns, t, gates[k])
  }

  lemma TGateEncoded(ns: seq<Node>, i: nat, cls: seq<Clause>, hi: nat, m: Model)
    requires NodesShaped(ns) && TernaryNodes(ns) && i < |ns| && ns[i].Gate?
    requires TEncodes(ns[i].func, TVars(ns[i].fanins), TVar(i), cls, hi)
    ensures Sat(m, cls) <==> TGateHolds(ns, TNodes(|ns|, m), i)
  {
    var ins := ns[i].fanins;
    forall k | 0 <= k < |ins|
      ensures TernsAt(m, TVars(ins))[k] == TVals(TNodes(|ns|, m), ins)[k]
    {
      assert ins[k] in ins;
    }
    assert TernsAt(m, TVars(ins)) == TVals(TNodes(|ns|, m), ins);
  }

  /** `init_ternary_solver`. */
  method InitTernarySolver(ns: seq<Node>, gates: seq<nat>, S: SatSolver.Solver)
    requires TernaryNodes(ns) && NodesShaped(ns) && ListsGates(ns, gates) && S.Valid()
    requires S.numVars == 0 && S.clauses == []
    modifies S`numVars, S`clauses
    ensures S.Valid() && S.numVars == 2 * |ns| + 2
    ensures forall m :: Sat(m, S.clauses) <==> IsTVal(ns, TNodes(|ns|, m))
  {
    while S.numVars <= 2 * |ns| + 1
      invariant S.Valid() && S.clauses == [] && S.numVars <= 2 * |ns| + 2
    {
      var v := S.NewVar();
    }
    var i := 0;
    while i != |gates|
      invariant 0 <= i <= |gates| && S.Valid() && S.numVars == 2 * |ns| + 2
      invariant forall m :: Sat(m, S.clauses) <==> TGatesHoldTo(ns, TNodes(|ns|, m), gates, i)
    {
      var g := gates[i];
      assert g in gates;
      RoomFor(ns, g);
      var cls := AddTernary(ns[g].func, TVars(ns[g].fanins), TVar(g), S.numVars);
      ghost var before := S.clauses;
      CktCompiler.AddToSolver(S, cls);
      forall m
        ensures Sat(m, S.clauses) <==> TGatesHoldTo(ns, TNodes(|ns|, m), gates, i + 1)
      {
        SatAppend(m, before, cls);
        TGateEncoded(ns, g, cls, S.numVars, m);
      }
      i := i + 1;
    }
    forall m
      ensures TGatesHoldTo(ns, TNodes(|ns|, m), gates, |gates|) <==> IsTVal(ns, TNodes(|ns|, m))
    {
      AllGates(ns, gates, TNodes(|ns|, m));
    }
  }

  lemma RoomFor(ns: seq<Node>, g: nat)
    requires TernaryNodes(ns) && g < |ns| && ns[g].Gate?
    ensures Room(TVars(ns[g].fanins), 2 * |ns| + 2) && TVar(g) + 1 < 2 * |ns| + 2
  {
    var ins := ns[g].fanins;
    forall u | u in TVars(ins) ensures u + 1 < 2 * |ns| + 2 {
      var k :| 0 <= k < |ins| && TVars(ins)[k] == u;
      assert ins[k] in ins;
    }
  }

  lemma AllGates(ns: seq<Node>, gates: seq<nat>, t: seq<Tern>)
    requires NodesShaped(ns) && |t| == |ns| && ListsGates(ns, gates)
    ensures TGatesHoldTo(ns, t, gates, |gates|) <==> IsTVal(ns, t)
  {
    if TGatesHoldTo(ns, t, gates, |gates|) {
      forall i | 0 <= i < |ns|
        ensures TGateHolds(ns, t, i)
      {
        if ns[i].Gate? {
          assert i in gates;
          var k :| 0 <= k < |gates| && gates[k] == i;
        }
      }
    }
    if IsTVal(ns, t) {
      forall k | 0 <= k < |gates| ensures gates[k] in gates && TGateHolds(ns, t, gates[k]) {
        assert gates[k] in gates;
      }
    }
  }
}
