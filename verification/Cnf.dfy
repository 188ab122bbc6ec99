/**
 Literals, clauses and models of the SAT interface.

 A variable is a natural number; a literal is a variable with a sign
 (`mkLit(v)` is the positive one).  A model is a finite sequence of bits;
 variables beyond its end read as false, so every model values every literal.
 */
module Cnf {

  datatype Lit = Lit(v: nat, neg: bool)

  type Clause = seq<Lit>

  type Model = seq<bool>

  /** No element occurs twice. */
  ghost predicate NoDup<T>(s: seq<T>) {
    forall i, j :: 0 <= i < j < |s| ==> s[i] != s[j]
  }

  function MkLit(v: nat): Lit {
    Lit(v, false)
  }

  function Neg(l: Lit): Lit {
    Lit(l.v, !l.neg)
  }

  /** The index under which a literal is watched: 2v for v, 2v + 1 for its negation. */
  function ToInt(l: Lit): nat {
    2 * l.v + (if l.neg then 1 else 0)
  }

  /** The literal of variable `v` that is true exactly when `v` has value `b`. */
  function LitFor(v: nat, b: bool): Lit {
    Lit(v, !b)
  }

  predicate Bit(m: Model, v: nat) {
    v < |m| && m[v]
  }

  predicate Holds(m: Model, l: Lit) {
    Bit(m, l.v) != l.neg
  }

  predicate SatClause(m: Model, c: Clause) {
    exists l :: l in c && Holds(m, l)
  }

  predicate Sat(m: Model, cs: seq<Clause>) {
    forall c :: c in cs ==> SatClause(m, c)
  }

  predicate AllHold(m: Model, ls: seq<Lit>) {
    forall l :: l in ls ==> Holds(m, l)
  }

  predicate ClauseBelow(c: Clause, n: nat) {
    forall l :: l in c ==> l.v < n
  }

  predicate Below(cs: seq<Clause>, n: nat) {
    forall c :: c in cs ==> ClauseBelow(c, n)
  }

  predicate IsModel(m: Model, n: nat, cs: seq<Clause>, assumps: seq<Lit>) {
    |m| == n && Sat(m, cs) && AllHold(m, assumps)
  }

  /** Satisfaction of a conjunction of two clause lists. */
  lemma SatAppend(m: Model, a: seq<Clause>, b: seq<Clause>)
    ensures Sat(m, a + b) <==> Sat(m, a) && Sat(m, b)
  {
    if Sat(m, a + b) {
      forall c | c in a ensures SatClause(m, c) { assert c in a + b; }
      forall c | c in b ensures SatClause(m, c) { assert c in a + b; }
    }
  }

  /** Only the variables that occur decide whether clauses hold. */
  lemma SatAgree(m: Model, m': Model, n: nat, cs: seq<Clause>)
    requires Below(cs, n)
    requires forall v :: 0 <= v < n ==> Bit(m, v) == Bit(m', v)
    ensures Sat(m, cs) <==> Sat(m', cs)
  {
    forall c | c in cs
      ensures SatClause(m, c) <==> SatClause(m', c)
    {
      assert ClauseBelow(c, n);
      forall l | l in c ensures Holds(m, l) == Holds(m', l) {}
    }
  }
}
