/**
 `CEGSolver`: counterexample-guided solving of "some first block makes the output
 true for all second blocks".  A candidate solver proposes first blocks, a second
 solver refutes them, and each refutation is added to the candidate solver by
 partial evaluation of the formula at the refuting second block.
 */
module CegSolver {
  import opened Cnf
  import opened Netlist
  import opened Rewriting
  import opened ClauseLists
  import opened KeySpace
  import SatSolver

  /** The formula, its two quantified blocks and its output variable. */
  datatype Query = Query(size: nat, eqs: seq<nat>, uqs: seq<nat>, out: nat, cs: seq<Clause>)

  datatype Answer = Aborted | Decided(yes: bool)

  ghost predicate Blocks(q: Query) {
    && q.out < q.size && q.out !in q.eqs && q.out !in q.uqs
    && (forall v :: v in q.eqs ==> v < q.size && v !in q.uqs)
    && (forall v :: v in q.uqs ==> v < q.size)
    && Below(q.cs, q.size)
  }

  ghost predicate Solves(q: Query, n: Model) {
    |n| == q.size && Sat(n, q.cs)
  }

  /** `n` is a model in which the blocks have the values `e` and `u`. */
  ghost predicate Plays(q: Query, e: seq<bool>, u: seq<bool>, n: Model) {
    Solves(q, n) && Vals(n, q.eqs) == e && Vals(n, q.uqs) == u
  }

  /** Against `u`, the choice `e` makes the output true. */
  ghost predicate GoodAt(q: Query, e: seq<bool>, u: seq<bool>) {
    exists n :: Plays(q, e, u, n) && Bit(n, q.out)
  }

  ghost predicate Wins(q: Query, e: seq<bool>) {
    && (exists n: Model :: |n| == q.size && Vals(n, q.eqs) == e)
    && forall w: Model :: |w| == q.size ==> GoodAt(q, e, Vals(w, q.uqs))
  }

  ghost predicate ExistsForall(q: Query) {
    exists e :: Wins(q, e)
  }

  /**
   The formula is the compiled form of a circuit, possibly with more clauses on the
   first block: an allowed first block admits every second one, and both together
   determine the output.
   */
  ghost predicate Functional(q: Query) {
    && (forall n, w: Model :: Solves(q, n) && |w| == q.size ==> Admits(q, Vals(n, q.eqs), Vals(w, q.uqs)))
    && (forall n, n' :: Solves(q, n) && Plays(q, Vals(n, q.eqs), Vals(n, q.uqs), n') ==>
          Bit(n, q.out) == Bit(n', q.out))
  }

  ghost predicate Admits(q: Query, e: seq<bool>, u: seq<bool>) {
    exists n :: Plays(q, e, u, n)
  }

  // ----- what the candidate solver knows -----

  /** First blocks not refuted by the recorded second blocks. */
  ghost predicate Alive(q: Query, seen: seq<Model>, e: seq<bool>) {
    && (exists n: Model :: |n| == q.size && Vals(n, q.eqs) == e)
    && forall w :: w in seen ==> GoodAt(q, e, Vals(w, q.uqs))
  }

  ghost predicate Proposes(n: nat, cs: seq<Clause>, eqs: seq<nat>, e: seq<bool>) {
    exists m :: IsModel(m, n, cs, []) && Vals(m, eqs) == e
  }

  ghost predicate Knows(q: Query, n: nat, cs: seq<Clause>, seen: seq<Model>) {
    && n >= q.size && (cs == [] <==> seen == [])
    && forall e :: Proposes(n, cs, q.eqs, e) <==> Alive(q, seen, e)
  }

  /** The values given to the rewriting: the second block of `w`, and a true output. */
  ghost predicate Fixes(q: Query, a: Partial, w: Model) {
    |a| == q.size && forall v :: 0 <= v < q.size ==>
      a[v] == if v == q.out then Some(true) else if v in q.uqs then Some(Bit(w, v)) else None
  }

  ghost predicate FlagsBlock(q: Query, flags: seq<bool>) {
    |flags| == q.size && forall v :: 0 <= v < q.size ==> flags[v] == (v in q.eqs)
  }

  lemma ValsAgree(m: Model, n: Model, vs: seq<nat>)
    ensures Vals(m, vs) == Vals(n, vs) <==> forall v :: v in vs ==> Bit(m, v) == Bit(n, v)
  {
    if Vals(m, vs) == Vals(n, vs) {
      forall v | v in vs ensures Bit(m, v) == Bit(n, v) {
        var i :| 0 <= i < |vs| && vs[i] == v;
        assert Vals(m, vs)[i] == Vals(n, vs)[i];
      }
    }
  }

  /** A model of the formula with the fixed values is a play against `w` with a true output. */
  lemma WitnessesArePlays(q: Query, a: Partial, flags: seq<bool>, w: Model, m: Model, n: Model)
    requires Blocks(q) && Fixes(q, a, w) && FlagsBlock(q, flags) && |n| == q.size
    ensures Witnesses(n, m, q.cs, a, flags) <==>
      Plays(q, Vals(m, q.eqs), Vals(w, q.uqs), n) && Bit(n, q.out)
  {
    ValsAgree(n, m, q.eqs);
    ValsAgree(n, w, q.uqs);
    if Witnesses(n, m, q.cs, a, flags) {
      forall v | v in q.eqs ensures Bit(n, v) == Bit(m, v) {
        assert a[v].None? && Flagged(flags, v);
      }
      forall v | v in q.uqs ensures Bit(n, v) == Bit(w, v) {
        assert a[v] == Some(Bit(w, v));
      }
      assert a[q.out] == Some(true);
    }
  }

  lemma ProjectionIsGood(q: Query, a: Partial, flags: seq<bool>, w: Model, m: Model)
    requires Blocks(q) && Fixes(q, a, w) && FlagsBlock(q, flags)
    ensures (exists n :: Witnesses(n, m, q.cs, a, flags)) <==> GoodAt(q, Vals(m, q.eqs), Vals(w, q.uqs))
  {
    if n :| Witnesses(n, m, q.cs, a, flags) {
      WitnessesArePlays(q, a, flags, w, m, n);
    }
    if GoodAt(q, Vals(m, q.eqs), Vals(w, q.uqs)) {
      var n :| Plays(q, Vals(m, q.eqs), Vals(w, q.uqs), n) && Bit(n, q.out);
      WitnessesArePlays(q, a, flags, w, m, n);
      assert Witnesses(n, m, q.cs, a, flags);
    }
  }

  /** Recording the refutation `w` removes exactly the first blocks it refutes. */
  lemma RecordRefutation(
      q: Query, n: nat, cs: seq<Clause>, seen: seq<Model>, w: Model,
      a: Partial, flags: seq<bool>, rw: Rewrites, hi: nat)
    requires Blocks(q) && Knows(q, n, cs, seen) && Below(cs, n)
    requires Fixes(q, a, w) && FlagsBlock(q, flags) && n <= hi
    requires FreshMap(rw, n, hi) && Covers(q.cs, a, flags, rw)
    requires RewriteAll(q.cs, a, flags, rw) != []
    ensures Knows(q, hi, cs + RewriteAll(q.cs, a, flags, rw), seen + [w])
  {
    var added := RewriteAll(q.cs, a, flags, rw);
    forall e
      ensures Proposes(hi, cs + added, q.eqs, e) <==> Alive(q, seen + [w], e)
    {
      AliveSnoc(q, seen, w, e);
      if Proposes(hi, cs + added, q.eqs, e) {
        var m' :| IsModel(m', hi, cs + added, []) && Vals(m', q.eqs) == e;
        SatAppend(m', cs, added);
        var m := m'[..n];
        SatAgree(m', m, n, cs);
        ValsAgree(m', m, q.eqs);
        assert IsModel(m, n, cs, []);
        assert Proposes(n, cs, q.eqs, e);
        assert Extensible(m, hi, added);
        ExactProjection(m, q.cs, a, flags, rw, hi);
        ProjectionIsGood(q, a, flags, w, m);
      }
      if Alive(q, seen + [w], e) {
        assert Proposes(n, cs, q.eqs, e);
        var m :| IsModel(m, n, cs, []) && Vals(m, q.eqs) == e;
        ProjectionIsGood(q, a, flags, w, m);
        ExactProjection(m, q.cs, a, flags, rw, hi);
        var m' :| |m'| == hi && m <= m' && Sat(m', added);
        SatAgree(m', m, n, cs);
        ValsAgree(m', m, q.eqs);
        SatAppend(m', cs, added);
        assert IsModel(m', hi, cs + added, []);
      }
    }
  }

  lemma AliveSnoc(q: Query, seen: seq<Model>, w: Model, e: seq<bool>)
    ensures Alive(q, seen + [w], e) <==> Alive(q, seen, e) && GoodAt(q, e, Vals(w, q.uqs))
  {
    assert w in seen + [w];
  }

  // ----- what the two solver calls decide -----

  /** A model with the candidate's first block and a false output: the choice loses there. */
  lemma RefutedIsBad(q: Query, n: Model)
    requires Functional(q) && Solves(q, n) && !Bit(n, q.out)
    ensures !GoodAt(q, Vals(n, q.eqs), Vals(n, q.uqs))
  {
    forall n' | Plays(q, Vals(n, q.eqs), Vals(n, q.uqs), n')
      ensures !Bit(n', q.out)
    {
    }
  }

  /** An allowed first block with no refuting model wins. */
  lemma UnrefutedWins(q: Query, n: Model)
    requires Functional(q) && Solves(q, n)
    requires forall n' :: Solves(q, n') && Vals(n', q.eqs) == Vals(n, q.eqs) ==> Bit(n', q.out)
    ensures Wins(q, Vals(n, q.eqs))
  {
    var e := Vals(n, q.eqs);
    forall w: Model | |w| == q.size
      ensures GoodAt(q, e, Vals(w, q.uqs))
    {
      assert Admits(q, e, Vals(w, q.uqs));
      var n' :| Plays(q, e, Vals(w, q.uqs), n');
    }
  }

  /** Alive first blocks are allowed: they have a model, unless nothing was recorded yet. */
  lemma AliveIsAllowed(q: Query, seen: seq<Model>, e: seq<bool>) returns (n: Model)
    requires Alive(q, seen, e) && seen != []
    ensures Solves(q, n) && Vals(n, q.eqs) == e && Bit(n, q.out)
  {
    assert seen[0] in seen;
    n :| Plays(q, e, Vals(seen[0], q.uqs), n) && Bit(n, q.out);
  }

  lemma WinnersAlive(q: Query, seen: seq<Model>, e: seq<bool>)
    requires Wins(q, e) && forall w :: w in seen ==> |w| == q.size
    ensures Alive(q, seen, e)
  {
  }

  /** If the fixed values satisfied every clause, flipping the output would stay a model. */
  lemma FlippedIsGood(q: Query, n: Model, a: Partial)
    requires Blocks(q) && Solves(q, n) && Fixes(q, a, n) && forall c :: c in q.cs ==> SatisfiedBy(a, c)
    ensures GoodAt(q, Vals(n, q.eqs), Vals(n, q.uqs))
  {
    var n' := n[q.out := true];
    forall c | c in q.cs
      ensures SatClause(n', c)
    {
      var l :| l in c && IsTrue(a, l);
      assert ClauseBelow(c, q.size);
      assert Holds(n', l);
    }
    ValsAgree(n', n, q.eqs);
    ValsAgree(n', n, q.uqs);
    assert Plays(q, Vals(n, q.eqs), Vals(n, q.uqs), n');
  }

  /** Rewriting at a refutation leaves at least one clause. */
  lemma SomethingAdded(q: Query, n: Model, a: Partial, flags: seq<bool>, rw: Rewrites)
    requires Blocks(q) && Functional(q) && Solves(q, n) && !Bit(n, q.out) && Fixes(q, a, n)
    ensures RewriteAll(q.cs, a, flags, rw) != []
  {
    RefutedIsBad(q, n);
    if RewriteAll(q.cs, a, flags, rw) == [] {
      NothingLeft(q.cs, a, flags, rw);
      FlippedIsGood(q, n, a);
    }
  }

  lemma {:induction false} NothingLeft(cs: seq<Clause>, a: Partial, flags: seq<bool>, rw: Rewrites)
    requires RewriteAll(cs, a, flags, rw) == []
    ensures forall c :: c in cs ==> SatisfiedBy(a, c)
  {
    if cs != [] {
      NothingLeft(cs[..|cs| - 1], a, flags, rw);
      assert cs == cs[..|cs| - 1] + [cs[|cs| - 1]];
    }
  }

  // ----- when a rewritten clause is emptied -----

  /** All literals are on the second block or the negated output, and the clause is no tautology. */
  ghost predicate Bare(q: Query, c: Clause) {
    forall l :: l in c ==> (l == Neg(MkLit(q.out)) || l.v in q.uqs) && Neg(l) !in c
  }

  ghost predicate HasBareClause(q: Query) {
    exists c :: c in q.cs && Bare(q, c)
  }

  ghost predicate Empties(q: Query, a: Partial, w: Model) {
    Fixes(q, a, w) && exists c :: c in q.cs && FalsifiedBy(a, c)
  }

  /** Only a bare clause is ever emptied. */
  lemma EmptiedIsBare(q: Query, a: Partial, w: Model, c: Clause)
    requires Fixes(q, a, w) && c in q.cs && FalsifiedBy(a, c)
    ensures Bare(q, c)
  {
    forall l | l in c
      ensures (l == Neg(MkLit(q.out)) || l.v in q.uqs) && Neg(l) !in c
    {
      assert IsFalse(a, l);
      assert Neg(l) in c ==> IsFalse(a, Neg(l));
    }
  }

  /** The second block that makes all literals of `c` false, with any first block and output of `n`. */
  ghost function Against(q: Query, c: Clause, n: Model): (w: Model)
    requires |n| == q.size
    ensures |w| == q.size
  {
    seq(q.size, v requires 0 <= v < q.size => if v in q.uqs then Neg(MkLit(v)) in c else n[v])
  }

  /** A bare clause is emptied by some second block. */
  lemma BareIsEmptied(q: Query, c: Clause, w: Model, a: Partial)
    requires Blocks(q) && c in q.cs && Bare(q, c) && Fixes(q, a, w)
    requires forall v :: v in q.uqs ==> (Bit(w, v) <==> Neg(MkLit(v)) in c)
    ensures FalsifiedBy(a, c)
  {
    assert ClauseBelow(c, q.size);
    forall l | l in c
      ensures IsFalse(a, l)
    {
      if l.v in q.uqs && !l.neg {
        assert Neg(l) == Neg(MkLit(l.v));
      } else if l.v in q.uqs {
        assert l == Neg(MkLit(l.v));
      }
    }
  }

  ghost function FixesFor(q: Query, w: Model): (a: Partial)
    ensures Fixes(q, a, w)
  {
    seq(q.size, v requires 0 <= v < q.size =>
      if v == q.out then Some(true) else if v in q.uqs then Some(Bit(w, v)) else None)
  }

  /** Some second block empties a clause if and only if there is a bare clause. */
  lemma EmptiedIff(q: Query)
    requires Blocks(q)
    ensures HasBareClause(q) <==> exists a, w: Model :: |w| == q.size && Empties(q, a, w)
  {
    if a, w: Model :| |w| == q.size && Empties(q, a, w) {
      var c :| c in q.cs && FalsifiedBy(a, c);
      EmptiedIsBare(q, a, w, c);
    }
    if HasBareClause(q) {
      var c :| c in q.cs && Bare(q, c);
      var w := Against(q, c, seq(q.size, _ => false));
      BareIsEmptied(q, c, w, FixesFor(q, w));
      assert Empties(q, FixesFor(q, w), w);
    }
  }

  /** There is a bare clause, and a first candidate. */
  ghost predicate CanAbort(q: Query) {
    HasBareClause(q) && exists m :: Solves(q, m) && Bit(m, q.out)
  }

  /** The first round finds the candidate of `m` and its counterexample `w`, and the assertion fails. */
  ghost predicate FirstRoundAborts(q: Query, m: Model, w: Model) {
    && Solves(q, m) && Bit(m, q.out) && Solves(q, w) && Vals(w, q.eqs) == Vals(m, q.eqs) && !Bit(w, q.out)
    && Empties(q, FixesFor(q, w), w)
  }

  /** A bare clause forces the output to be false against its second block, for every first block. */
  lemma BareAborts(q: Query, c: Clause, m: Model) returns (w: Model)
    requires Blocks(q) && Functional(q) && c in q.cs && Bare(q, c) && Solves(q, m) && Bit(m, q.out)
    ensures FirstRoundAborts(q, m, w)
  {
    hide Bare, Blocks, FalsifiedBy;
    var w0 := Against(q, c, m);
    assert Admits(q, Vals(m, q.eqs), Vals(w0, q.uqs));
    w :| Plays(q, Vals(m, q.eqs), Vals(w0, q.uqs), w);
    AgainstBits(q, c, m);
    ValsAgree(w, w0, q.uqs);
    BareIsEmptied(q, c, w, FixesFor(q, w));
    if Bit(w, q.out) {
      EmptiedClauseFails(q, FixesFor(q, w), w, c, w);
    }
  }

  lemma AgainstBits(q: Query, c: Clause, m: Model)
    requires Blocks(q) && |m| == q.size
    ensures forall v :: v in q.uqs ==> (Bit(Against(q, c, m), v) <==> Neg(MkLit(v)) in c)
  {
  }

  /** The assertion that no clause is emptied can fail if and only if there is a bare clause and a candidate. */
  lemma AbortsIff(q: Query)
    requires Blocks(q) && Functional(q)
    ensures CanAbort(q) <==> exists m, w :: FirstRoundAborts(q, m, w)
  {
    hide Functional, Blocks, Bare, FalsifiedBy, Fixes, Solves, FixesFor;
    if m, w :| FirstRoundAborts(q, m, w) {
      var c :| c in q.cs && FalsifiedBy(FixesFor(q, w), c);
      EmptiedIsBare(q, FixesFor(q, w), w, c);
    }
    if CanAbort(q) {
      var c :| c in q.cs && Bare(q, c);
      var m :| Solves(q, m) && Bit(m, q.out);
      var w := BareAborts(q, c, m);
    }
  }

  /** Node 2 buffers node 1, which is the second block. */
  function BufferQuery(): Query {
    Query(3, [], [1], 2, [[MkLit(1), Neg(MkLit(2))], [Neg(MkLit(1)), MkLit(2)]])
  }

  lemma BufferIsFunctional()
    ensures Blocks(BufferQuery()) && Functional(BufferQuery())
    ensures forall n: Model :: Solves(BufferQuery(), n) <==> |n| == 3 && n[1] == n[2]
  {
    var q := BufferQuery();
    forall n: Model
      ensures Solves(q, n) <==> |n| == 3 && n[1] == n[2]
    {
      if |n| == 3 {
        BufferClauses(n);
      }
    }
    hide Solves;
    forall n, w: Model | Solves(q, n) && |w| == 3
      ensures Admits(q, Vals(n, []), Vals(w, [1]))
    {
      assert Plays(q, [], Vals(w, [1]), [false, w[1], w[1]]);
    }
    forall n, n' | Solves(q, n) && Plays(q, Vals(n, q.eqs), Vals(n, q.uqs), n')
      ensures Bit(n, 2) == Bit(n', 2)
    {
      assert Vals(n, q.uqs)[0] == Vals(n', q.uqs)[0];
    }
  }

  /** An output that buffers an input of the second block: there is a candidate, and each counterexample aborts. */
  lemma BufferAborts()
    ensures var q := BufferQuery();
      Blocks(q) && Functional(q) && CanAbort(q) && !ExistsForall(q) &&
      forall w :: Solves(q, w) && !Bit(w, q.out) ==> Empties(q, FixesFor(q, w), w)
  {
    hide Functional, Solves, FalsifiedBy, Fixes, FixesFor, ExistsForall, Blocks;
    BufferIsFunctional();
    var q, c := BufferQuery(), [MkLit(1), Neg(MkLit(2))];
    assert q.cs[0] == c && Bare(q, c);
    hide Bare;
    assert Solves(q, [false, true, true]) && Bit([false, true, true], 2);
    forall w | Solves(q, w) && !Bit(w, q.out)
      ensures Empties(q, FixesFor(q, w), w)
    {
      BareIsEmptied(q, c, w, FixesFor(q, w));
    }
    var w := [false, false, false];
    assert Empties(q, FixesFor(q, w), w);
    EmptiedLoses(q, FixesFor(q, w), w);
  }

  lemma BufferClauses(n: Model)
    requires |n| == 3
    ensures Sat(n, [[MkLit(1), Neg(MkLit(2))], [Neg(MkLit(1)), MkLit(2)]]) <==> n[1] == n[2]
  {
    var a, b := [MkLit(1), Neg(MkLit(2))], [Neg(MkLit(1)), MkLit(2)];
    assert a[0] == MkLit(1) && a[1] == Neg(MkLit(2)) && b[0] == Neg(MkLit(1)) && b[1] == MkLit(2);
    assert Holds(n, a[0]) == n[1] && Holds(n, a[1]) == !n[2] && Holds(n, b[0]) == !n[1] && Holds(n, b[1]) == n[2];
    assert [a, b][0] == a && [a, b][1] == b;
    if SatClause(n, a) && SatClause(n, b) {
      var l :| l in a && Holds(n, l);
      var k :| k in b && Holds(n, k);
    }
    if n[1] == n[2] {
      assert SatClause(n, a) && SatClause(n, b);
    }
  }

  lemma EmptiedClauseFails(q: Query, a: Partial, w: Model, c: Clause, n: Model)
    requires Blocks(q) && Fixes(q, a, w) && c in q.cs && FalsifiedBy(a, c)
    requires Vals(n, q.uqs) == Vals(w, q.uqs) && Bit(n, q.out)
    ensures !Sat(n, q.cs)
  {
    ValsAgree(n, w, q.uqs);
    forall l | l in c
      ensures !Holds(n, l)
    {
      assert IsFalse(a, l);
    }
  }

  /** When a clause is emptied, the second block `w` beats every first block. */
  lemma EmptiedLoses(q: Query, a: Partial, w: Model)
    requires Blocks(q) && Fixes(q, a, w) && |w| == q.size && exists c :: c in q.cs && FalsifiedBy(a, c)
    ensures !ExistsForall(q)
  {
    var c :| c in q.cs && FalsifiedBy(a, c);
    forall e
      ensures !GoodAt(q, e, Vals(w, q.uqs))
    {
      forall n | Plays(q, e, Vals(w, q.uqs), n)
        ensures !Bit(n, q.out)
      {
        if Bit(n, q.out) {
          EmptiedClauseFails(q, a, w, c, n);
        }
      }
    }
  }

  lemma NotEmptiedAt(q: Query, a: Partial, w: Model)
    requires Fixes(q, a, w) && forall c :: c in q.cs ==> !FalsifiedBy(a, c)
    ensures !Emptied(q, w)
  {
    assert a == FixesFor(q, w);
  }

  lemma AbortLoses(q: Query, seen: seq<Model>, e: seq<bool>, a: Partial, w: Model)
    requires Blocks(q) && Fixes(q, a, w) && |w| == q.size && Allowed(q, seen, e)
    requires !forall c :: c in q.cs ==> !FalsifiedBy(a, c)
    ensures !ExistsForall(q) && CanAbort(q) && a == FixesFor(q, w)
    ensures Emptied(q, w)
  {
    assert a == FixesFor(q, w);
    var c :| c in q.cs && FalsifiedBy(a, c);
    EmptiedIsBare(q, a, w, c);
    EmptiedLoses(q, a, w);
  }

  // ----- progress -----

  ghost function AliveSet(q: Query, seen: seq<Model>): set<seq<bool>> {
    set e | e in AllKeys(|q.eqs|) && Alive(q, seen, e)
  }

  lemma AliveSetShrinks(q: Query, seen: seq<Model>, w: Model, e: seq<bool>)
    requires Alive(q, seen, e) && !GoodAt(q, e, Vals(w, q.uqs))
    ensures |AliveSet(q, seen + [w])| < |AliveSet(q, seen)|
  {
    AllKeysComplete(|q.eqs|, e);
    forall e' ensures Alive(q, seen + [w], e') ==> Alive(q, seen, e') {
      AliveSnoc(q, seen, w, e');
    }
    AliveSnoc(q, seen, w, e);
    assert e in AliveSet(q, seen) && e !in AliveSet(q, seen + [w]);
    StrictSubset(AliveSet(q, seen + [w]), AliveSet(q, seen), e);
  }

  /** Recording a refutation of `w`'s own first block keeps the knowledge exact and shrinks it. */
  lemma RefutationRecorded(
      q: Query, n: nat, cs: seq<Clause>, seen: seq<Model>, w: Model,
      a: Partial, flags: seq<bool>, rw: Rewrites, hi: nat)
    requires Blocks(q) && Functional(q) && Knows(q, n, cs, seen) && Below(cs, n)
    requires Solves(q, w) && !Bit(w, q.out) && Alive(q, seen, Vals(w, q.eqs))
    requires Fixes(q, a, w) && FlagsBlock(q, flags) && n <= hi
    requires FreshMap(rw, n, hi) && Covers(q.cs, a, flags, rw)
    ensures Knows(q, hi, cs + RewriteAll(q.cs, a, flags, rw), seen + [w])
    ensures |AliveSet(q, seen + [w])| < |AliveSet(q, seen)|
  {
    SomethingAdded(q, w, a, flags, rw);
    RefutedIsBad(q, w);
    RecordRefutation(q, n, cs, seen, w, a, flags, rw, hi);
    AliveSetShrinks(q, seen, w, Vals(w, q.eqs));
  }

  /** Before any refutation, at most all first blocks are alive. */
  lemma AliveSetSize(q: Query)
    ensures |AliveSet(q, [])| <= Pow2(|q.eqs|)
  {
    AllKeysSize(|q.eqs|);
    SubsetSize(AliveSet(q, []), AllKeys(|q.eqs|));
  }

  class CegSolver {
    const vars: nat
    const eq: seq<bool>
    const eqList: seq<nat>
    const uqList: seq<nat>
    const output: nat
    const Scand: SatSolver.Solver
    const Scex: SatSolver.Solver
    const cl: ClauseList
    /** Whether the last candidate came from `Scand` (else from `Scex`). */
    var lastFromCand: bool
    var numCubes: nat
    var iterations: nat
    /** The refuting assignments recorded so far. */
    ghost var seen: seq<Model>

    /** The question asked: the clauses added so far over the two blocks. */
    ghost function Problem(): Query
      reads cl
      requires cl.Valid()
    {
      Query(vars + 1, eqList, uqList, output, cl.Contents())
    }

    ghost predicate Valid()
      reads this, Scand, Scex, cl
    {
      && Scand.Valid() && Scex.Valid() && cl.Valid() && Scand != Scex
      && Blocks(Problem()) && FlagsBlock(Problem(), eq)
      && cl.NVars() == vars + 1 == Scex.numVars && Scex.clauses == cl.Contents()
      && (forall w :: w in seen ==> |w| == vars + 1)
      && Knows(Problem(), Scand.numVars, Scand.clauses, seen)
    }

    /** `initialize`: variables, flags and lists; no clauses yet. */
    constructor (nVars: nat, eqVars: seq<nat>, uqVars: seq<nat>, out: nat)
      requires Blocks(Query(nVars + 1, eqVars, uqVars, out, []))
      ensures Valid() && fresh(Scand) && fresh(Scex) && fresh(cl)
      ensures Problem() == Query(nVars + 1, eqVars, uqVars, out, []) && seen == []
    {
      var cand := new SatSolver.Solver();
      var cex := new SatSolver.Solver();
      var list := new ClauseList();
      while cand.numVars <= nVars
        invariant cand.Valid() && cex.Valid() && list.Valid() && cand != cex
        invariant cand.numVars == cex.numVars == list.NVars() <= nVars + 1
        invariant cand.clauses == [] && cex.clauses == [] && list.Contents() == []
        invariant fresh(cand) && fresh(cex) && fresh(list)
      {
        var v := cand.NewVar();
        v := cex.NewVar();
        list.NewVar();
      }
      vars, eqList, uqList, output := nVars, eqVars, uqVars, out;
      eq := seq(nVars + 1, v requires 0 <= v < nVars + 1 => v in eqVars);
      Scand, Scex, cl := cand, cex, list;
      lastFromCand, numCubes, iterations, seen := false, 0, 0, [];
      KnowsNothing(Query(nVars + 1, eqVars, uqVars, out, []));
    }

    /** `addClause`: to the refuting solver and to the stored formula, before solving starts. */
    method AddClause(c: Clause)
      requires Valid() && seen == [] && c != [] && ClauseBelow(c, vars + 1)
      modifies this, Scex, cl
      ensures Valid() && seen == []
      ensures Problem() == old(Problem()).(cs := old(Problem()).cs + [c])
    {
      Scex.AddClause(c);
      cl.AddClause(c);
      KnowsNothing(Problem());
    }

    lemma Shape()
      requires Valid()
      ensures |eq| == vars + 1 <= Scand.numVars && Scex.numVars == vars + 1 && Scex.clauses == Problem().cs
      ensures Scand.clauses == [] <==> seen == []
    {
    }

    /** `S_lastcand->modelValue`. */
    function LastModel(): Model
      reads this, Scand, Scex
    {
      if lastFromCand then Scand.model else Scex.model
    }

    /** `_findCandidate`: a first block not refuted so far, as assumptions, with the output assumed false. */
    method FindCandidate() returns (result: bool, assumps: seq<Lit>)
      requires Valid()
      modifies this`lastFromCand, Scand`model, Scex`model
      ensures Valid()
      ensures !result ==> !ExistsForall(Problem()) && NoneAllowed(Problem(), seen)
      ensures result ==> Allowed(Problem(), seen, Vals(LastModel(), eqList))
      ensures result ==> assumps == FixLits(eqList, Vals(LastModel(), eqList)) + [Neg(MkLit(output))]
    {
      Shape();
      hide Knows, Wins, Alive, Allowed, ExistsForall, Blocks, FlagsBlock, ClauseList.Valid, Below, IsModel;
      assumps := [];
      if Scand.NClauses() > 0 {
        result := Scand.Solve([]);
        lastFromCand := true;
        CandidateFromCand(Problem(), Scand.numVars, Scand.clauses, seen, result, Scand.model);
      } else {
        result := Scex.Solve([MkLit(output)]);
        lastFromCand := false;
        assert Scex.clauses == Problem().cs;
        assert Scex.numVars == Problem().size;
        CandidateFromCex(Problem(), result, Scex.model);
      }
      if !result {
        return;
      }
      assumps := AssumeBlock();
      assumps := assumps + [Neg(MkLit(output))];
    }

    /** The candidate's first block as assumptions. */
    method AssumeBlock() returns (assumps: seq<Lit>)
      ensures assumps == FixLits(eqList, Vals(LastModel(), eqList))
    {
      assumps := [];
      ghost var fixed := FixLits(eqList, Vals(LastModel(), eqList));
      for i := 0 to |eqList|
        invariant assumps == fixed[..i]
      {
        assert fixed[i] == LitFor(eqList[i], Bit(LastModel(), eqList[i]));
        var l := MkLit(eqList[i]);
        var ri := if lastFromCand then Scand.ModelValue(l) else Scex.ModelValue(l);
        assumps := assumps + [if ri then l else Neg(l)];
      }
    }

    /** The values for rewriting: the refuting second block, and a true output. */
    method FillValues(values: Partial) returns (filled: Partial)
      requires Valid() && UndefElsewhere(Problem(), values)
      ensures UndefElsewhere(Problem(), filled) && Fixes(Problem(), filled, Scex.model)
    {
      filled := values;
      for i := 0 to |uqList|
        invariant UndefElsewhere(Problem(), filled)
        invariant forall j :: 0 <= j < i ==>
          uqList[j] in uqList && filled[uqList[j]] == Some(Bit(Scex.model, uqList[j]))
      {
        assert uqList[i] in uqList;
        filled := filled[uqList[i] := Some(Scex.ModelValue(MkLit(uqList[i])))];
      }
      filled := filled[output := Some(true)];
    }

    /** The rewriting of the stored clauses into the candidate solver, without renaming. */
    method AddRewritten(values: Partial) returns (outcome: Outcome, rw: Rewrites)
      requires Valid() && |values| == vars + 1
      modifies Scand`clauses, Scand`numVars
      ensures Scand.Valid() && Scand.numVars >= old(Scand.numVars) && FreshMap(rw, old(Scand.numVars), Scand.numVars)
      ensures outcome.Added? <==> forall c :: c in cl.Contents() ==> !FalsifiedBy(values, c)
      ensures outcome.Added? ==> Covers(cl.Contents(), values, eq, rw)
      ensures outcome.Added? ==>
        Scand.clauses == old(Scand.clauses) + RewriteAll(cl.Contents(), values, eq, rw)
      ensures outcome.Added? ==> outcome.count == |Scand.clauses| - |old(Scand.clauses)|
    {
      Shape();
      hide Knows, FreshMap, Covers, ClauseList.Valid, Sat;
      NoRename(cl.Contents());
      outcome, rw := cl.AddRewrittenClauses(values, eq, None, Scand);
    }

    /** The end of an iteration: the refuting second block goes to the candidate solver. */
    method RecordCounterexample(values: Partial, ghost e: seq<bool>) returns (recorded: bool)
      requires Valid() && Functional(Problem()) && Fixes(Problem(), values, Scex.model)
      requires Allowed(Problem(), seen, e) && Solves(Problem(), Scex.model)
      requires Vals(Scex.model, eqList) == e && !Bit(Scex.model, output)
      modifies this`numCubes, this`seen, Scand`clauses, Scand`numVars
      ensures recorded ==> Valid() && |AliveSet(Problem(), seen)| < old(|AliveSet(Problem(), seen)|)
      ensures recorded ==> seen == old(seen) + [Scex.model] && !Emptied(Problem(), Scex.model)
      ensures recorded ==> numCubes == old(numCubes) + |Scand.clauses| - |old(Scand.clauses)|
      ensures !recorded ==> !ExistsForall(Problem()) && CanAbort(Problem())
      ensures !recorded ==> seen == old(seen) && AbortsAt(Problem(), seen, Scex.model)
    {
      hide Knows, Alive, Allowed, ExistsForall, Functional, Blocks, FlagsBlock, ClauseList.Valid, Sat, AliveSet,
        GoodAt, Fixes, FreshMap, Covers, CanAbort, FalsifiedBy, RewriteAll, Emptied;
      ghost var q, n, cs, w := Problem(), Scand.numVars, Scand.clauses, Scex.model;
      Shape();
      FixesSize(q, values, w);
      assert |w| == q.size && Below(cs, n);
      AllowedAlive(q, seen, e);
      var outcome, rw := AddRewritten(values);
      if outcome.Aborted? {
        AbortLoses(q, seen, e, values, w);
        return false;
      }
      NotEmptiedAt(q, values, w);
      numCubes := numCubes + outcome.count;
      RefutationRecorded(q, n, cs, seen, w, values, eq, rw, Scand.numVars);
      seen := seen + [w];
      recorded := true;
    }

    /** The end of `solve` for a candidate without refutation: the query with a true output has a model. */
    method Confirm(assumps0: seq<Lit>, ghost e: seq<bool>) returns (resolve: bool)
      requires Valid() && Functional(Problem()) && Allowed(Problem(), seen, e) && |e| == |eqList|
      requires lastFromCand ==> e == Vals(Scand.model, eqList)
      requires assumps0 == FixLits(eqList, e) + [Neg(MkLit(output))]
      requires forall n :: Solves(Problem(), n) && Vals(n, eqList) == e ==> Bit(n, output)
      modifies Scex`model
      ensures Valid() && resolve && ExistsForall(Problem()) && Wins(Problem(), Vals(LastModel(), eqList))
    {
      hide Knows, Wins, Alive, ExistsForall, Functional, Blocks, FlagsBlock, ClauseList.Valid, Below, Allowed, Solves;
      hide IsModel, AllHold;
      ghost var q := Problem();
      Shape();
      var assumps := assumps0[|assumps0| - 1 := MkLit(output)];
      assert assumps == FixLits(eqList, e) + [MkLit(output)];
      ghost var winner := UnrefutedResolves(q, seen, e, assumps);
      assert q.size == Scex.numVars && q.cs == Scex.clauses;
      resolve := Scex.Solve(assumps);
      HasBlock(Scex.numVars, Scex.clauses, eqList, e, assumps, MkLit(output), Scex.model);
    }

    /**
     `solve`.  Ends after at most one iteration for each first block not yet
     refuted and one more; the answer is whether some first block wins, and the
     winning block can then be read off.  A negative answer means that no first block is
     left to try.  The assertion that a rewritten clause is not empty fails exactly at a
     refutation that empties a clause, and then no first block wins; every query that
     can abort may do so in the first round (`AbortsIff`).
     */
    method Solve() returns (answer: Answer)
      requires Valid() && Functional(Problem())
      modifies this, Scand, Scex`model
      ensures answer.Decided? ==> Valid()
      ensures Problem() == old(Problem())
      ensures answer.Decided? ==> answer.yes == ExistsForall(Problem())
      ensures answer.Aborted? ==> !ExistsForall(Problem()) && CanAbort(Problem())
      ensures old(seen) <= seen
      ensures answer.Aborted? ==> AbortsAt(Problem(), seen, Scex.model)
      ensures forall w :: w in seen[|old(seen)|..] ==> !Emptied(Problem(), w)
      ensures answer == Decided(false) ==> NoneAllowed(Problem(), seen)
      ensures iterations == old(iterations) + |seen| - |old(seen)| + 1
      ensures answer.Decided? ==> numCubes == old(numCubes) + |Scand.clauses| - |old(Scand.clauses)|
      ensures answer == Decided(true) ==> Wins(Problem(), Vals(LastModel(), eqList))
      ensures iterations <= old(iterations) + old(|AliveSet(Problem(), seen)|) + 1
      ensures old(seen) == [] ==> iterations <= old(iterations) + Pow2(|eqList|) + 1
    {
      hide Knows, Wins, Alive, ExistsForall, Functional, Blocks, FlagsBlock, ClauseList.Valid, Below, IsModel,
        AliveSet, CanAbort, Allowed, NoneAllowed, AbortsAt, Emptied;
      ghost var q := Problem();
      AliveSetSize(q);
      var values: Partial := seq(vars + 1, _ => None);
      while true
        invariant Valid() && Problem() == q && UndefElsewhere(q, values)
        invariant iterations + |AliveSet(q, seen)| <= old(iterations) + old(|AliveSet(Problem(), seen)|)
        invariant old(seen) <= seen && iterations == old(iterations) + |seen| - |old(seen)|
        invariant forall w :: w in seen[|old(seen)|..] ==> !Emptied(q, w)
        invariant numCubes == old(numCubes) + |Scand.clauses| - |old(Scand.clauses)|
        decreases |AliveSet(q, seen)|
      {
        iterations := iterations + 1;
        var result, assumps := FindCandidate();
        Shape();
        if !result {
          return Decided(false);
        }
        ghost var e := Vals(LastModel(), eqList);
        var cex := Scex.Solve(assumps);
        assert q.size == Scex.numVars;
        assert q.cs == Scex.clauses;
        Refutation(q, e, assumps, cex, Scex.model);
        if !cex {
          var resolve := Confirm(assumps, e);
          return Decided(resolve);
        }
        values := FillValues(values);
        var recorded := RecordCounterexample(values, e);
        if !recorded {
          return Answer.Aborted;
        }
      }
      answer := Decided(false);
    }
  }

  ghost predicate UndefElsewhere(q: Query, a: Partial) {
    |a| == q.size && forall v :: 0 <= v < q.size && v != q.out && v !in q.uqs ==> a[v] == None
  }

  function FixLits(vs: seq<nat>, e: seq<bool>): (r: seq<Lit>)
    requires |e| == |vs|
    ensures |r| == |vs|
  {
    seq(|vs|, i requires 0 <= i < |vs| => LitFor(vs[i], e[i]))
  }

  lemma FixedBlock(vs: seq<nat>, e: seq<bool>, last: Lit, m: Model)
    requires |e| == |vs|
    ensures AllHold(m, FixLits(vs, e) + [last]) <==> Vals(m, vs) == e && Holds(m, last)
  {
    var ls := FixLits(vs, e) + [last];
    assert ls[|vs|] == last;
    if AllHold(m, ls) {
      forall i | 0 <= i < |vs| ensures Vals(m, vs)[i] == e[i] {
        assert ls[i] == LitFor(vs[i], e[i]) && ls[i] in ls;
      }
    }
    if Vals(m, vs) == e {
      forall i | 0 <= i < |vs| ensures Holds(m, FixLits(vs, e)[i]) {
        assert Vals(m, vs)[i] == e[i];
      }
    }
  }

  lemma HasBlock(n: nat, cs: seq<Clause>, vs: seq<nat>, e: seq<bool>, assumps: seq<Lit>, last: Lit, m: Model)
    requires |e| == |vs| && assumps == FixLits(vs, e) + [last] && IsModel(m, n, cs, assumps)
    ensures Vals(m, vs) == e
  {
    FixedBlock(vs, e, last, m);
  }

  /** A candidate: not refuted, and part of some model with a true output. */
  ghost predicate Allowed(q: Query, seen: seq<Model>, e: seq<bool>) {
    Alive(q, seen, e) && exists n :: Solves(q, n) && Vals(n, q.eqs) == e && Bit(n, q.out)
  }

  /** No first block is left to try. */
  ghost predicate NoneAllowed(q: Query, seen: seq<Model>) {
    forall e :: !Allowed(q, seen, e)
  }

  /** The refuting model `w` of an allowed first block, whose second block empties a clause. */
  ghost predicate AbortsAt(q: Query, seen: seq<Model>, w: Model) {
    && Solves(q, w) && !Bit(w, q.out) && Allowed(q, seen, Vals(w, q.eqs))
    && Emptied(q, w)
  }

  /** Partial evaluation at the second block of `w` empties some clause. */
  ghost predicate Emptied(q: Query, w: Model) {
    exists c :: c in q.cs && FalsifiedBy(FixesFor(q, w), c)
  }

  lemma CandidateFromCand(q: Query, n: nat, cs: seq<Clause>, seen: seq<Model>, result: bool, m: Model)
    requires Knows(q, n, cs, seen) && cs != [] && forall w :: w in seen ==> |w| == q.size
    requires result <==> exists m' :: IsModel(m', n, cs, [])
    requires result ==> IsModel(m, n, cs, [])
    ensures !result ==> !ExistsForall(q) && NoneAllowed(q, seen)
    ensures result ==> Allowed(q, seen, Vals(m, q.eqs))
  {
    if result {
      assert Proposes(n, cs, q.eqs, Vals(m, q.eqs));
      var n' := AliveIsAllowed(q, seen, Vals(m, q.eqs));
    } else {
      forall e ensures !Wins(q, e) {
        assert !Proposes(n, cs, q.eqs, e);
        assert !Alive(q, seen, e);
        if Wins(q, e) {
          WinnersAlive(q, seen, e);
        }
      }
    }
  }

  lemma CandidateFromCex(q: Query, result: bool, m: Model)
    requires result <==> exists m' :: IsModel(m', q.size, q.cs, [MkLit(q.out)])
    requires result ==> IsModel(m, q.size, q.cs, [MkLit(q.out)])
    ensures !result ==> !ExistsForall(q) && NoneAllowed(q, [])
    ensures result ==> Allowed(q, [], Vals(m, q.eqs))
  {
    if result {
      assert [MkLit(q.out)][0] == MkLit(q.out) && Holds(m, MkLit(q.out));
      assert Solves(q, m);
    } else {
      forall e ensures !Allowed(q, [], e) {
        forall n | Solves(q, n) ensures !Bit(n, q.out) {
          assert Bit(n, q.out) ==> IsModel(n, q.size, q.cs, [MkLit(q.out)]);
        }
      }
      var w: Model := seq(q.size, _ => false);
      forall e ensures !GoodAt(q, e, Vals(w, q.uqs)) {
        forall n | Plays(q, e, Vals(w, q.uqs), n) ensures !Bit(n, q.out) {
          if Bit(n, q.out) {
            assert IsModel(n, q.size, q.cs, [MkLit(q.out)]);
          }
        }
      }
    }
  }

  /** The refuting query asks for a model with the candidate's block and a false output. */
  lemma Refutation(q: Query, e: seq<bool>, assumps: seq<Lit>, cex: bool, m: Model)
    requires |e| == |q.eqs| && assumps == FixLits(q.eqs, e) + [Neg(MkLit(q.out))]
    requires cex <==> exists m' :: IsModel(m', q.size, q.cs, assumps)
    requires cex ==> IsModel(m, q.size, q.cs, assumps)
    ensures cex ==> Solves(q, m) && Vals(m, q.eqs) == e && !Bit(m, q.out)
    ensures !cex ==> forall n :: Solves(q, n) && Vals(n, q.eqs) == e ==> Bit(n, q.out)
  {
    FixedBlock(q.eqs, e, Neg(MkLit(q.out)), m);
    if !cex {
      forall n | Solves(q, n) && Vals(n, q.eqs) == e
        ensures Bit(n, q.out)
      {
        FixedBlock(q.eqs, e, Neg(MkLit(q.out)), n);
        assert !IsModel(n, q.size, q.cs, assumps);
      }
    }
  }

  /** With no refutation the candidate wins, and the query with a true output has a model. */
  lemma UnrefutedResolves(q: Query, seen: seq<Model>, e: seq<bool>, assumps: seq<Lit>) returns (n: Model)
    requires Functional(q) && |e| == |q.eqs| && Allowed(q, seen, e)
    requires forall n :: Solves(q, n) && Vals(n, q.eqs) == e ==> Bit(n, q.out)
    requires assumps == FixLits(q.eqs, e) + [MkLit(q.out)]
    ensures Wins(q, e) && ExistsForall(q) && IsModel(n, q.size, q.cs, assumps)
  {
    n :| Solves(q, n) && Vals(n, q.eqs) == e;
    UnrefutedWins(q, n);
    FixedBlock(q.eqs, e, MkLit(q.out), n);
  }

  lemma FixesSize(q: Query, a: Partial, w: Model)
    requires Fixes(q, a, w)
    ensures |a| == q.size
  {
  }

  lemma AllowedAlive(q: Query, seen: seq<Model>, e: seq<bool>)
    requires Allowed(q, seen, e)
    ensures Alive(q, seen, e)
  {
  }

  lemma NoRename(cs: seq<Clause>)
    ensures RenameAll(cs, None) == cs
  {
    forall i | 0 <= i < |cs| ensures RenameAll(cs, None)[i] == cs[i] {}
  }

  /** Before anything is recorded every first block is a candidate. */
  lemma KnowsNothing(q: Query)
    ensures Knows(q, q.size, [], [])
  {
    forall e
      ensures Proposes(q.size, [], q.eqs, e) <==> Alive(q, [], e)
    {
      if Alive(q, [], e) {
        var n: Model :| |n| == q.size && Vals(n, q.eqs) == e;
        assert IsModel(n, q.size, [], []);
      }
    }
  }
}
