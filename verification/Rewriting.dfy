/**
 What partial evaluation with fresh variables does to a clause list.

 `assumps` fixes some variables; `flags` marks variables that keep their name;
 `rw` maps every other literal that survives to a literal of a fresh variable.
 The rewritten clauses are an exact projection: their models are, up to the
 fresh names, the models of the original clauses that respect `assumps`.
 */
module Rewriting {
  import opened Cnf

  datatype Option<+T> = None | Some(value: T)

  /** `lbool` values, indexed by variable. */
  type Partial = seq<Option<bool>>

  type Rewrites = map<Lit, Lit>

  predicate IsTrue(a: Partial, l: Lit) {
    l.v < |a| && a[l.v] == Some(!l.neg)
  }

  predicate IsFalse(a: Partial, l: Lit) {
    l.v < |a| && a[l.v] == Some(l.neg)
  }

  predicate SatisfiedBy(a: Partial, c: Clause) {
    exists l :: l in c && IsTrue(a, l)
  }

  /** Every literal of the clause is fixed to false: rewriting it leaves nothing. */
  predicate FalsifiedBy(a: Partial, c: Clause) {
    forall l :: l in c ==> IsFalse(a, l)
  }

  predicate Flagged(flags: seq<bool>, v: nat) {
    v < |flags| && flags[v]
  }

  function RewriteLit(l: Lit, flags: seq<bool>, rw: Rewrites): Lit {
    if Flagged(flags, l.v) then l else if l in rw then rw[l] else l
  }

  function RewriteClause(c: Clause, a: Partial, flags: seq<bool>, rw: Rewrites): Clause {
    if c == [] then []
    else
      var last := c[|c| - 1];
      RewriteClause(c[..|c| - 1], a, flags, rw) + (if IsFalse(a, last) then [] else [RewriteLit(last, flags, rw)])
  }

  /** Satisfied clauses are dropped, the others lose their false literals and are renamed. */
  function RewriteAll(cs: seq<Clause>, a: Partial, flags: seq<bool>, rw: Rewrites): seq<Clause> {
    if cs == [] then []
    else
      var last := cs[|cs| - 1];
      RewriteAll(cs[..|cs| - 1], a, flags, rw) +
      (if SatisfiedBy(a, last) then [] else [RewriteClause(last, a, flags, rw)])
  }

  /** `rw` treats both signs alike and sends distinct literals to distinct fresh ones in [lo, hi). */
  ghost predicate FreshMap(rw: Rewrites, lo: nat, hi: nat) {
    && (forall v: nat {:trigger MkLit(v)} ::
          && (MkLit(v) in rw <==> Neg(MkLit(v)) in rw)
          && (MkLit(v) in rw ==>
                !rw[MkLit(v)].neg && lo <= rw[MkLit(v)].v < hi && rw[Neg(MkLit(v))] == Neg(rw[MkLit(v)])))
    && (forall v: nat, w: nat {:trigger rw[MkLit(v)], rw[MkLit(w)]} ::
          MkLit(v) in rw && MkLit(w) in rw && rw[MkLit(v)] == rw[MkLit(w)] ==> v == w)
  }

  /** Whatever sign `l` has, the map follows its variable. */
  lemma FreshLit(rw: Rewrites, lo: nat, hi: nat, l: Lit)
    requires FreshMap(rw, lo, hi)
    ensures l in rw <==> MkLit(l.v) in rw
    ensures l in rw ==> rw[l] == Lit(rw[MkLit(l.v)].v, l.neg)
  {
    assert l == if l.neg then Neg(MkLit(l.v)) else MkLit(l.v);
  }

  ghost predicate CoversLits(ls: seq<Lit>, a: Partial, flags: seq<bool>, rw: Rewrites) {
    forall l :: l in ls && !IsFalse(a, l) && !Flagged(flags, l.v) ==> l in rw
  }

  ghost predicate Covers(cs: seq<Clause>, a: Partial, flags: seq<bool>, rw: Rewrites) {
    forall c :: c in cs && !SatisfiedBy(a, c) ==> CoversLits(c, a, flags, rw)
  }

  // ----- no more fresh variables than needed -----

  ghost predicate StandsFor(rw: Rewrites, u: nat, v: nat) {
    MkLit(v) in rw && rw[MkLit(v)].v == u
  }

  ghost predicate IsUsed(rw: Rewrites, u: nat) {
    exists v: nat :: StandsFor(rw, u, v)
  }

  /** Every fresh variable stands for an old one. */
  ghost predicate NoneSpare(rw: Rewrites, lo: nat, hi: nat) {
    forall u: nat :: lo <= u < hi ==> IsUsed(rw, u)
  }

  /** Literal `j` is of the free variable `v` that does not keep its name, and no literal before it is true. */
  ghost predicate MetAt(c: Clause, j: nat, a: Partial, flags: seq<bool>, v: nat) {
    j < |c| && c[j].v == v < |a| && a[v].None? && !Flagged(flags, v) && !SatisfiedBy(a, c[..j])
  }

  ghost predicate MetIn(c: Clause, n: nat, a: Partial, flags: seq<bool>, v: nat) {
    exists j: nat :: j < n && MetAt(c, j, a, flags, v)
  }

  /** Exactly the variables met in the clauses are renamed. */
  ghost predicate RenamesMet(rw: Rewrites, cs: seq<Clause>, a: Partial, flags: seq<bool>) {
    forall v: nat :: MkLit(v) in rw <==> exists c :: c in cs && MetIn(c, |c|, a, flags, v)
  }

  /** `rw'` renames those that `rw` does and those met among the first `n` literals of `c`. */
  ghost predicate RenamesMore(rw: Rewrites, rw': Rewrites, c: Clause, n: nat, a: Partial, flags: seq<bool>) {
    forall v: nat :: MkLit(v) in rw' <==> MkLit(v) in rw || MetIn(c, n, a, flags, v)
  }

  lemma RenamesSnoc(rw: Rewrites, rw': Rewrites, cs: seq<Clause>, c: Clause, a: Partial, flags: seq<bool>)
    requires RenamesMet(rw, cs, a, flags) && RenamesMore(rw, rw', c, |c|, a, flags)
    ensures RenamesMet(rw', cs + [c], a, flags)
  {
    hide MetIn;
    forall v: nat
      ensures MkLit(v) in rw' <==> exists d :: d in cs + [c] && MetIn(d, |d|, a, flags, v)
    {
      if d :| d in cs && MetIn(d, |d|, a, flags, v) {
        assert d in cs + [c];
      }
      assert c in cs + [c];
    }
  }

  /** One literal more: a new name is needed exactly if it is one to rename. */
  lemma RenamesLit(rw: Rewrites, rw': Rewrites, rw'': Rewrites, c: Clause, j: nat, a: Partial, flags: seq<bool>)
    requires RenamesMore(rw, rw', c, j, a, flags) && j < |c| && c[j].v < |a| && !SatisfiedBy(a, c[..j])
    requires forall v: nat :: MkLit(v) in rw'' <==>
      MkLit(v) in rw' || (v == c[j].v && a[v].None? && !Flagged(flags, v))
    ensures RenamesMore(rw, rw'', c, j + 1, a, flags)
  {
    forall v: nat
      ensures MkLit(v) in rw'' <==> MkLit(v) in rw || MetIn(c, j + 1, a, flags, v)
    {
      if MetIn(c, j, a, flags, v) {
        var k: nat :| k < j && MetAt(c, k, a, flags, v);
        assert k < j + 1;
      }
      if MetAt(c, j, a, flags, v) {
        assert j < j + 1;
      }
      if MetIn(c, j + 1, a, flags, v) && !MetIn(c, j, a, flags, v) {
        var k: nat :| k < j + 1 && MetAt(c, k, a, flags, v);
        assert k == j;
      }
    }
  }

  lemma TrueBlocks(c: Clause, j: nat, k: nat, a: Partial)
    requires j <= |c| && (j < |c| ==> IsTrue(a, c[j]))
    ensures j < k <= |c| ==> SatisfiedBy(a, c[..k])
  {
    if j < k <= |c| {
      assert c[..k][j] == c[j];
    }
  }

  /** Behind a true literal nothing is met. */
  lemma RenamesEnd(rw: Rewrites, rw': Rewrites, c: Clause, j: nat, a: Partial, flags: seq<bool>)
    requires RenamesMore(rw, rw', c, j, a, flags) && j <= |c| && (j < |c| ==> IsTrue(a, c[j]))
    ensures RenamesMore(rw, rw', c, |c|, a, flags)
  {
    forall v: nat
      ensures MetIn(c, |c|, a, flags, v) <==> MetIn(c, j, a, flags, v)
    {
      if MetIn(c, |c|, a, flags, v) {
        var k: nat :| k < |c| && MetAt(c, k, a, flags, v);
        TrueBlocks(c, j, k, a);
      }
      if MetIn(c, j, a, flags, v) {
        var k: nat :| k < j && MetAt(c, k, a, flags, v);
        assert k < |c|;
      }
    }
  }

  ghost predicate Extends(rw: Rewrites, rw': Rewrites) {
    forall l :: l in rw ==> l in rw' && rw'[l] == rw[l]
  }

  lemma {:induction false} RewriteClauseGrows(c: Clause, a: Partial, flags: seq<bool>, rw: Rewrites, rw': Rewrites)
    requires CoversLits(c, a, flags, rw) && Extends(rw, rw')
    ensures RewriteClause(c, a, flags, rw') == RewriteClause(c, a, flags, rw)
  {
    if c != [] {
      assert c[|c| - 1] in c;
      RewriteClauseGrows(c[..|c| - 1], a, flags, rw, rw');
    }
  }

  lemma {:induction false} RewriteAllGrows(cs: seq<Clause>, a: Partial, flags: seq<bool>, rw: Rewrites, rw': Rewrites)
    requires Covers(cs, a, flags, rw) && Extends(rw, rw')
    ensures RewriteAll(cs, a, flags, rw') == RewriteAll(cs, a, flags, rw)
    ensures Covers(cs, a, flags, rw')
  {
    if cs != [] {
      var last := cs[|cs| - 1];
      assert last in cs;
      RewriteAllGrows(cs[..|cs| - 1], a, flags, rw, rw');
      if !SatisfiedBy(a, last) {
        RewriteClauseGrows(last, a, flags, rw, rw');
      }
    }
  }

  // ----- the exact projection -----

  /** The original variables' values that a model of the rewritten clauses stands for. */
  ghost function Pull(m: Model, a: Partial, flags: seq<bool>, rw: Rewrites): (r: Model)
    ensures |r| == |a|
  {
    seq(|a|, v requires 0 <= v < |a| =>
      if a[v].Some? then a[v].value
      else if Flagged(flags, v) then Bit(m, v)
      else MkLit(v) in rw && Bit(m, rw[MkLit(v)].v))
  }

  ghost predicate Respects(n: Model, a: Partial) {
    |n| == |a| && forall v :: 0 <= v < |a| && a[v].Some? ==> n[v] == a[v].value
  }

  /** `n` and `m` agree on the variables that are free and keep their name. */
  ghost predicate AgreeFlagged(n: Model, m: Model, a: Partial, flags: seq<bool>) {
    forall v :: 0 <= v < |a| && a[v].None? && Flagged(flags, v) ==> Bit(n, v) == Bit(m, v)
  }

  lemma OptionCases(o: Option<bool>, b: bool)
    ensures o == None || o == Some(b) || o == Some(!b)
  {
    if o.Some? {
      var x := o.value;
      assert x == b || x == !b;
      assert o == Some(x);
    }
  }

  lemma Undecided(a: Partial, l: Lit)
    requires l.v < |a| && !IsTrue(a, l) && !IsFalse(a, l)
    ensures a[l.v] == None
  {
    OptionCases(a[l.v], l.neg);
  }

  lemma PullLit(m: Model, a: Partial, flags: seq<bool>, rw: Rewrites, l: Lit, lo: nat, hi: nat)
    requires FreshMap(rw, lo, hi) && l.v < |a| && a[l.v].None?
    requires Flagged(flags, l.v) || l in rw
    ensures Holds(Pull(m, a, flags, rw), l) == Holds(m, RewriteLit(l, flags, rw))
  {
    FreshLit(rw, lo, hi, l);
  }

  lemma {:induction false} RewriteClauseSem(
    m: Model, c: Clause, a: Partial, flags: seq<bool>, rw: Rewrites, lo: nat, hi: nat)
    requires FreshMap(rw, lo, hi) && ClauseBelow(c, |a|)
    requires !SatisfiedBy(a, c) && CoversLits(c, a, flags, rw)
    ensures SatClause(m, RewriteClause(c, a, flags, rw)) <==> SatClause(Pull(m, a, flags, rw), c)
  {
    if c != [] {
      var init, last := c[..|c| - 1], c[|c| - 1];
      assert c == init + [last];
      assert last in c && !IsTrue(a, last);
      RewriteClauseSem(m, init, a, flags, rw, lo, hi);
      var r := RewriteClause(c, a, flags, rw);
      var n := Pull(m, a, flags, rw);
      assert SatClause(n, c) <==> SatClause(n, init) || Holds(n, last);
      if !IsFalse(a, last) {
        var l' := RewriteLit(last, flags, rw);
        assert r == RewriteClause(init, a, flags, rw) + [l'];
        assert SatClause(m, r) <==> SatClause(m, RewriteClause(init, a, flags, rw)) || Holds(m, l') by {
          assert l' in r;
        }
        Undecided(a, last);
        PullLit(m, a, flags, rw, last, lo, hi);
      }
    }
  }

  /** A model satisfies the rewritten clauses iff the valuation it stands for satisfies the original ones. */
  lemma {:induction false} RewriteAllSem(
    m: Model, cs: seq<Clause>, a: Partial, flags: seq<bool>, rw: Rewrites, lo: nat, hi: nat)
    requires FreshMap(rw, lo, hi) && Below(cs, |a|) && Covers(cs, a, flags, rw)
    ensures Sat(m, RewriteAll(cs, a, flags, rw)) <==> Sat(Pull(m, a, flags, rw), cs)
  {
    if cs != [] {
      var init, last := cs[..|cs| - 1], cs[|cs| - 1];
      assert cs == init + [last];
      assert last in cs;
      RewriteAllSem(m, init, a, flags, rw, lo, hi);
      var n := Pull(m, a, flags, rw);
      SatAppend(n, init, [last]);
      if SatisfiedBy(a, last) {
        var l :| l in last && IsTrue(a, l);
        assert Holds(n, l);
      } else {
        RewriteClauseSem(m, last, a, flags, rw, lo, hi);
        SatAppend(m, RewriteAll(init, a, flags, rw), [RewriteClause(last, a, flags, rw)]);
      }
    }
  }

  /** Gives each fresh variable in [lo, hi) the value that `n` gives its origin; below `lo` copies `m`. */
  ghost function Push(m: Model, n: Model, rw: Rewrites, lo: nat, hi: nat): (r: Model)
    requires |m| == lo <= hi
    ensures |r| == hi && r[..lo] == m
  {
    seq(hi, u requires 0 <= u < hi =>
      if u < lo then m[u] else exists v: nat :: MkLit(v) in rw && rw[MkLit(v)].v == u && Bit(n, v))
  }

  lemma PushLit(m: Model, n: Model, rw: Rewrites, lo: nat, hi: nat, v: nat)
    requires |m| == lo <= hi && FreshMap(rw, lo, hi) && MkLit(v) in rw
    ensures Bit(Push(m, n, rw, lo, hi), rw[MkLit(v)].v) == Bit(n, v)
  {
    var u := rw[MkLit(v)].v;
    forall v': nat | MkLit(v') in rw && rw[MkLit(v')].v == u
      ensures v' == v
    {
      assert rw[MkLit(v')] == rw[MkLit(v)];
    }
  }

  lemma RoundTripLit(m: Model, n: Model, l: Lit, a: Partial, flags: seq<bool>, rw: Rewrites, lo: nat, hi: nat)
    requires |m| == lo <= hi && |a| <= lo && FreshMap(rw, lo, hi)
    requires l.v < |a| && a[l.v].None? && (Flagged(flags, l.v) || l in rw)
    requires AgreeFlagged(n, m, a, flags)
    ensures Holds(Pull(Push(m, n, rw, lo, hi), a, flags, rw), l) == Holds(n, l)
  {
    var p := Push(m, n, rw, lo, hi);
    if Flagged(flags, l.v) {
      assert p[l.v] == p[..lo][l.v];
    } else {
      FreshLit(rw, lo, hi, l);
      PushLit(m, n, rw, lo, hi, l.v);
    }
  }

  /** A valuation that respects `a` and satisfies the clauses is still satisfying after a round trip. */
  lemma RoundTripSat(m: Model, n: Model, cs: seq<Clause>, a: Partial, flags: seq<bool>, rw: Rewrites, lo: nat, hi: nat)
    requires |m| == lo <= hi && |a| <= lo && FreshMap(rw, lo, hi)
    requires Below(cs, |a|) && Covers(cs, a, flags, rw)
    requires Respects(n, a) && AgreeFlagged(n, m, a, flags) && Sat(n, cs)
    ensures Sat(Pull(Push(m, n, rw, lo, hi), a, flags, rw), cs)
  {
    var q := Pull(Push(m, n, rw, lo, hi), a, flags, rw);
    forall c | c in cs
      ensures SatClause(q, c)
    {
      RoundTripClause(m, n, c, a, flags, rw, lo, hi);
    }
  }

  lemma RoundTripClause(m: Model, n: Model, c: Clause, a: Partial, flags: seq<bool>, rw: Rewrites, lo: nat, hi: nat)
    requires |m| == lo <= hi && |a| <= lo && FreshMap(rw, lo, hi)
    requires ClauseBelow(c, |a|) && (SatisfiedBy(a, c) || CoversLits(c, a, flags, rw))
    requires Respects(n, a) && AgreeFlagged(n, m, a, flags) && SatClause(n, c)
    ensures SatClause(Pull(Push(m, n, rw, lo, hi), a, flags, rw), c)
  {
    var q := Pull(Push(m, n, rw, lo, hi), a, flags, rw);
    if SatisfiedBy(a, c) {
      var l :| l in c && IsTrue(a, l);
      assert Holds(q, l);
    } else {
      var l :| l in c && Holds(n, l);
      assert !IsFalse(a, l);
      Undecided(a, l);
      RoundTripLit(m, n, l, a, flags, rw, lo, hi);
      assert Holds(q, l);
    }
  }

  /** Over a model `m` of the variables that existed before, the rewritten clauses have a model. */
  ghost predicate Extensible(m: Model, hi: nat, added: seq<Clause>) {
    exists m' :: |m'| == hi && m <= m' && Sat(m', added)
  }

  /** `n` is a model of `cs` that has the fixed values and agrees with `m` on the kept names. */
  ghost predicate Witnesses(n: Model, m: Model, cs: seq<Clause>, a: Partial, flags: seq<bool>) {
    Respects(n, a) && AgreeFlagged(n, m, a, flags) && Sat(n, cs)
  }

  /**
   The exact projection.  A model of the old variables extends to the fresh
   variables iff the original clauses have a model with the fixed values and the
   same kept variables.
   */
  lemma ExactProjection(m: Model, cs: seq<Clause>, a: Partial, flags: seq<bool>, rw: Rewrites, hi: nat)
    requires |a| <= |m| <= hi && FreshMap(rw, |m|, hi)
    requires Below(cs, |a|) && Covers(cs, a, flags, rw)
    ensures Extensible(m, hi, RewriteAll(cs, a, flags, rw)) <==> exists n :: Witnesses(n, m, cs, a, flags)
  {
    var added := RewriteAll(cs, a, flags, rw);
    if Extensible(m, hi, added) {
      var m' :| |m'| == hi && m <= m' && Sat(m', added);
      RewriteAllSem(m', cs, a, flags, rw, |m|, hi);
      var n := Pull(m', a, flags, rw);
      assert Witnesses(n, m, cs, a, flags);
    }
    if n :| Witnesses(n, m, cs, a, flags) {
      var m' := Push(m, n, rw, |m|, hi);
      RoundTripSat(m, n, cs, a, flags, rw, |m|, hi);
      RewriteAllSem(m', cs, a, flags, rw, |m|, hi);
      assert m <= m';
      assert Extensible(m, hi, added);
    }
  }

  /**
   What is added is over fresh variables and those that keep their names and are free: no fixed
   variable is left.
   */
  lemma {:induction false} NothingFixedLeft(
      cs: seq<Clause>, a: Partial, flags: seq<bool>, rw: Rewrites, lo: nat, hi: nat)
    requires FreshMap(rw, lo, hi) && Below(cs, |a|) && Covers(cs, a, flags, rw)
    ensures forall d, l :: d in RewriteAll(cs, a, flags, rw) && l in d ==> StaysOpen(l, a, flags, lo, hi)
  {
    if cs != [] {
      var last := cs[|cs| - 1];
      assert last in cs;
      NothingFixedLeft(cs[..|cs| - 1], a, flags, rw, lo, hi);
      if !SatisfiedBy(a, last) {
        NothingFixedIn(last, a, flags, rw, lo, hi);
      }
    }
  }

  predicate StaysOpen(l: Lit, a: Partial, flags: seq<bool>, lo: nat, hi: nat) {
    (l.v < |a| && a[l.v].None? && Flagged(flags, l.v)) || lo <= l.v < hi
  }

  lemma {:induction false} NothingFixedIn(c: Clause, a: Partial, flags: seq<bool>, rw: Rewrites, lo: nat, hi: nat)
    requires FreshMap(rw, lo, hi) && ClauseBelow(c, |a|) && CoversLits(c, a, flags, rw) && !SatisfiedBy(a, c)
    ensures forall l :: l in RewriteClause(c, a, flags, rw) ==> StaysOpen(l, a, flags, lo, hi)
  {
    if c != [] {
      var last := c[|c| - 1];
      assert last in c && !IsTrue(a, last);
      NothingFixedIn(c[..|c| - 1], a, flags, rw, lo, hi);
      if !IsFalse(a, last) {
        Undecided(a, last);
        FreshLit(rw, lo, hi, last);
      }
    }
  }

  /** If the original clauses have any model with the fixed values, no clause rewrites to the empty one. */
  lemma NoneFalsified(n: Model, cs: seq<Clause>, a: Partial)
    requires Respects(n, a) && Sat(n, cs)
    ensures forall c :: c in cs ==> !FalsifiedBy(a, c)
  {
    forall c | c in cs
      ensures !FalsifiedBy(a, c)
    {
      assert SatClause(n, c);
      var l :| l in c && Holds(n, l);
      assert !IsFalse(a, l);
    }
  }
}
