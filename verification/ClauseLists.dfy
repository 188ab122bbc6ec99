/**
 `AllSAT::ClauseList`: a flat store of clauses with watch lists, and the partial
 evaluation of the stored clauses into a solver.
 */
module ClauseLists {
  import opened Cnf
  import opened Rewriting
  import SatSolver

  /** Outcome of `AddRewrittenClauses`: the number of clauses added, or its assertion failed. */
  datatype Outcome = Aborted | Added(count: nat)

  ghost predicate ValidLengths(lits: seq<Lit>, lengths: seq<nat>) {
    && |lengths| > 0 && lengths[0] == 0 && lengths[|lengths| - 1] == |lits|
    && (forall i, j :: 0 <= i < j < |lengths| ==> lengths[i] < lengths[j])
  }

  function Slices(lits: seq<Lit>, lengths: seq<nat>): (cs: seq<Clause>)
    requires ValidLengths(lits, lengths)
    ensures |cs| == |lengths| - 1
  {
    seq(|lengths| - 1, i requires 0 <= i < |lengths| - 1 => lits[lengths[i]..lengths[i + 1]])
  }

  /** Clause `i` appears in the watch list of `l` as often as `l` appears in clause `i`. */
  ghost predicate WatchesExact(cs: seq<Clause>, watches: seq<seq<nat>>) {
    forall l: Lit, i: nat :: ToInt(l) < |watches| ==> multiset(watches[ToInt(l)])[i] == Occurrences(cs, l, i)
  }

  ghost function Occurrences(cs: seq<Clause>, l: Lit, i: nat): nat {
    if i < |cs| then multiset(cs[i])[l] else 0
  }

  lemma ToIntInjective(l: Lit, l': Lit)
    requires ToInt(l) == ToInt(l')
    ensures l == l'
  {
  }

  lemma SlicesAppend(lits: seq<Lit>, lengths: seq<nat>, xs: Clause)
    requires ValidLengths(lits, lengths) && xs != []
    ensures ValidLengths(lits + xs, lengths + [|lits| + |xs|])
    ensures Slices(lits + xs, lengths + [|lits| + |xs|]) == Slices(lits, lengths) + [xs]
  {
    var lits', lengths' := lits + xs, lengths + [|lits| + |xs|];
    forall i | 0 <= i < |lengths|
      ensures Slices(lits', lengths')[i] == (Slices(lits, lengths) + [xs])[i]
    {
      if i < |lengths| - 1 {
        assert lengths[i + 1] <= |lits|;
        assert lits'[lengths[i]..lengths[i + 1]] == lits[lengths[i]..lengths[i + 1]];
      }
    }
  }

  /** `renameMap.find(l)->second`, or the literal itself for the overload without a map. */
  function Rename(l: Lit, rename: Option<map<Lit, Lit>>): Lit {
    if rename.Some? && l in rename.value then rename.value[l] else l
  }

  function RenameClause(c: Clause, rename: Option<map<Lit, Lit>>): (r: Clause)
    ensures |r| == |c|
  {
    seq(|c|, i requires 0 <= i < |c| => Rename(c[i], rename))
  }

  function RenameAll(cs: seq<Clause>, rename: Option<map<Lit, Lit>>): (r: seq<Clause>)
    ensures |r| == |cs|
  {
    seq(|cs|, i requires 0 <= i < |cs| => RenameClause(cs[i], rename))
  }

  class ClauseList {
    var clauses: seq<Lit>
    var lengths: seq<nat>
    var watches: seq<seq<nat>>

    ghost predicate Valid()
      reads this
    {
      && ValidLengths(clauses, lengths)
      && |watches| % 2 == 0
      && (forall l :: l in clauses ==> l.v < |watches| / 2)
      && WatchesExact(Slices(clauses, lengths), watches)
    }

    /** The stored clauses, by index. */
    function Contents(): seq<Clause>
      reads this
      requires Valid()
    {
      Slices(clauses, lengths)
    }

    lemma ContentsShape()
      requires Valid()
      ensures Below(Contents(), |watches| / 2)
      ensures forall c :: c in Contents() ==> c != []
    {
      hide WatchesExact;
      forall c | c in Contents()
        ensures ClauseBelow(c, |watches| / 2) && c != []
      {
        var i :| 0 <= i < |Contents()| && Contents()[i] == c;
        assert c == clauses[lengths[i]..lengths[i + 1]];
        forall l | l in c ensures l in clauses {}
      }
    }

    constructor ()
      ensures Valid() && Contents() == [] && watches == []
    {
      clauses, lengths, watches := [], [0], [];
    }

    method NewVar()
      requires Valid()
      modifies this`watches
      ensures Valid() && Contents() == old(Contents())
      ensures NVars() == old(NVars()) + 1
    {
      forall l: Lit, i: nat | ToInt(l) >= |watches|
        ensures Occurrences(Contents(), l, i) == 0
      {
        ContentsShape();
        if i < |Contents()| {
          assert Contents()[i] in Contents();
          assert l !in Contents()[i];
        }
      }
      watches := watches + [[], []];
      assert WatchesExact(Slices(clauses, lengths), watches);
    }

    function NVars(): nat
      reads this
    {
      |watches| / 2
    }

    /** Appends a clause and enters it in the watch list of each of its literals. */
    method AddClause(xs: Clause)
      requires Valid() && xs != [] && ClauseBelow(xs, NVars())
      modifies this
      ensures Valid() && NVars() == old(NVars())
      ensures Contents() == old(Contents()) + [xs]
    {
      var index := |lengths| - 1;
      ghost var cs := Contents();
      SlicesAppend(clauses, lengths, xs);
      ghost var lits0, lengths0 := clauses, lengths;
      for i := 0 to |xs|
        invariant clauses == lits0 + xs[..i] && lengths == lengths0
        invariant watches == old(watches)
      {
        clauses := clauses + [xs[i]];
      }
      assert clauses == lits0 + xs;
      lengths := lengths + [|clauses|];
      AddWatches(cs, index, xs);
      assert forall l :: l in clauses ==> l in lits0 || l in xs;
    }

    method AddWatches(ghost cs: seq<Clause>, index: nat, xs: Clause)
      requires index == |cs| && WatchesExact(cs, watches) && |watches| % 2 == 0
      requires ClauseBelow(xs, NVars())
      modifies this`watches
      ensures |watches| == old(|watches|) && WatchesExact(cs + [xs], watches)
    {
      forall l: Lit, k: nat | ToInt(l) < |watches|
        ensures multiset(watches[ToInt(l)])[k] == Occurrences(cs + [xs[..0]], l, k)
      {
        assert multiset(watches[ToInt(l)])[k] == Occurrences(cs, l, k);
        assert xs[..0] == [];
      }
      for i := 0 to |xs|
        invariant |watches| == old(|watches|)
        invariant WatchesExact(cs + [xs[..i]], watches)
      {
        var code := ToInt(xs[i]);
        assert xs[i] in xs;
        ghost var w := watches;
        watches := watches[code := watches[code] + [index]];
        assert xs[..i + 1] == xs[..i] + [xs[i]];
        forall l: Lit, k: nat | ToInt(l) < |watches|
          ensures multiset(watches[ToInt(l)])[k] == Occurrences(cs + [xs[..i + 1]], l, k)
        {
          assert multiset(w[ToInt(l)])[k] == Occurrences(cs + [xs[..i]], l, k);
          if ToInt(l) == code {
            ToIntInjective(l, xs[i]);
          } else {
            assert watches[ToInt(l)] == w[ToInt(l)];
          }
        }
      }
      assert xs[..|xs|] == xs;
    }

    /**
     Adds to `S` the stored clauses, renamed if a map is given, partially
     evaluated under `assumps`.  Aborts iff some clause would become empty.
     */
    method AddRewrittenClauses(
      assumps: Partial, flags: seq<bool>, rename: Option<map<Lit, Lit>>, S: SatSolver.Solver)
      returns (outcome: Outcome, rewrites: Rewrites)
      requires Valid() && S.Valid()
      requires rename.Some? ==> forall c, l :: c in Contents() && l in c ==> l in rename.value
      requires Below(RenameAll(Contents(), rename), |assumps|)
      requires |assumps| <= |flags| && |assumps| <= S.numVars
      modifies S`numVars, S`clauses
      ensures S.Valid() && S.numVars >= old(S.numVars)
      ensures FreshMap(rewrites, old(S.numVars), S.numVars)
      ensures outcome.Added? <==>
        forall c :: c in RenameAll(Contents(), rename) ==> !FalsifiedBy(assumps, c)
      ensures outcome.Added? ==>
        && Covers(RenameAll(Contents(), rename), assumps, flags, rewrites)
        && S.clauses == old(S.clauses) + RewriteAll(RenameAll(Contents(), rename), assumps, flags, rewrites)
        && outcome.count == |RewriteAll(RenameAll(Contents(), rename), assumps, flags, rewrites)|
        && RenamesMet(rewrites, RenameAll(Contents(), rename), assumps, flags)
        && NoneSpare(rewrites, old(S.numVars), S.numVars)
    {
      outcome, rewrites := RewriteClauses(RenameAll(Contents(), rename), assumps, flags, S);
    }
  }

  /** The loop over the clauses of a list, which stops with a failed assertion at an emptied clause. */
  method RewriteClauses(cs: seq<Clause>, assumps: Partial, flags: seq<bool>, S: SatSolver.Solver)
    returns (outcome: Outcome, rewrites: Rewrites)
    requires S.Valid() && Below(cs, |assumps|)
    requires |assumps| <= |flags| && |assumps| <= S.numVars
    modifies S`numVars, S`clauses
    ensures S.Valid() && S.numVars >= old(S.numVars)
    ensures FreshMap(rewrites, old(S.numVars), S.numVars)
    ensures outcome.Added? <==> forall c :: c in cs ==> !FalsifiedBy(assumps, c)
    ensures outcome.Added? ==>
      && Covers(cs, assumps, flags, rewrites)
      && S.clauses == old(S.clauses) + RewriteAll(cs, assumps, flags, rewrites)
      && outcome.count == |RewriteAll(cs, assumps, flags, rewrites)|
      && RenamesMet(rewrites, cs, assumps, flags) && NoneSpare(rewrites, old(S.numVars), S.numVars)
  {
    ghost var old0 := S.clauses;
    ghost var lo := S.numVars;
    var cnt := 0;
    rewrites := map[];
    var i := 0;
    while i != |cs|
      invariant 0 <= i <= |cs|
      invariant S.Valid() && S.numVars >= lo && FreshMap(rewrites, lo, S.numVars)
      invariant RenamesMet(rewrites, cs[..i], assumps, flags) && NoneSpare(rewrites, lo, S.numVars)
      invariant RewrittenAll(cs[..i], assumps, flags, rewrites, old0, S.clauses, cnt)
    {
      assert cs[i] in cs;
      assert cs[..i + 1] == cs[..i] + [cs[i]];
      ghost var before := rewrites;
      var sat, newClause;
      sat, newClause, rewrites := RewriteOne(cs[i], assumps, flags, S, rewrites, lo);
      RenamesSnoc(before, rewrites, cs[..i], cs[i], assumps, flags);
      RewrittenAllSnoc(cs[..i], assumps, flags, before, rewrites, old0, S.clauses, cnt, cs[i]);
      if !sat {
        if |newClause| == 0 {
          outcome := Aborted;
          return;
        }
        S.AddClause(newClause);
        cnt := cnt + 1;
      }
      i := i + 1;
    }
    assert cs[..i] == cs;
    outcome := Added(cnt);
  }

  /** `now` is `old0` followed by what becomes of `cs`, none of which is emptied. */
  ghost predicate RewrittenAll(
    cs: seq<Clause>, a: Partial, flags: seq<bool>, rw: Rewrites, old0: seq<Clause>, now: seq<Clause>, cnt: nat)
  {
    && Covers(cs, a, flags, rw) && (forall c :: c in cs ==> !FalsifiedBy(a, c))
    && now == old0 + RewriteAll(cs, a, flags, rw) && cnt == |RewriteAll(cs, a, flags, rw)|
  }

  lemma RewrittenAllSnoc(
    cs: seq<Clause>, a: Partial, flags: seq<bool>, rw: Rewrites, rw': Rewrites, old0: seq<Clause>, now: seq<Clause>,
    cnt: nat, c: Clause)
    requires RewrittenAll(cs, a, flags, rw, old0, now, cnt) && Extends(rw, rw')
    requires !SatisfiedBy(a, c) ==> CoversLits(c, a, flags, rw')
    ensures SatisfiedBy(a, c) ==> RewrittenAll(cs + [c], a, flags, rw', old0, now, cnt)
    ensures !SatisfiedBy(a, c) ==> (RewriteClause(c, a, flags, rw') == [] <==> FalsifiedBy(a, c))
    ensures !SatisfiedBy(a, c) && !FalsifiedBy(a, c) ==>
      RewrittenAll(cs + [c], a, flags, rw', old0, now + [RewriteClause(c, a, flags, rw')], cnt + 1)
  {
    RewriteAllGrows(cs, a, flags, rw, rw');
    assert (cs + [c])[..|cs|] == cs;
    NotEmptied(c, a, flags, rw');
    if SatisfiedBy(a, c) {
      SatisfiedNotFalsified(a, c);
    }
  }

  /** The inner loop over one (renamed) clause: stops at a literal that is already true. */
  method RewriteOne(c: Clause, assumps: Partial, flags: seq<bool>, S: SatSolver.Solver, rw: Rewrites, ghost lo: nat)
    returns (sat: bool, newClause: Clause, rewrites: Rewrites)
    requires S.Valid() && ClauseBelow(c, |assumps|)
    requires |assumps| <= |flags| && |assumps| <= lo <= S.numVars
    requires FreshMap(rw, lo, S.numVars) && NoneSpare(rw, lo, S.numVars)
    modifies S`numVars
    ensures S.Valid() && S.numVars >= old(S.numVars)
    ensures FreshMap(rewrites, lo, S.numVars) && Extends(rw, rewrites) && NoneSpare(rewrites, lo, S.numVars)
    ensures RenamesMore(rw, rewrites, c, |c|, assumps, flags)
    ensures sat == SatisfiedBy(assumps, c)
    ensures !sat ==>
      && CoversLits(c, assumps, flags, rewrites)
      && newClause == RewriteClause(c, assumps, flags, rewrites)
      && ClauseBelow(newClause, S.numVars)
  {
    sat, newClause, rewrites := false, [], rw;
    var j := 0;
    while j != |c|
      invariant 0 <= j <= |c| && S.Valid() && S.numVars >= old(S.numVars)
      invariant FreshMap(rewrites, lo, S.numVars) && Extends(rw, rewrites) && NoneSpare(rewrites, lo, S.numVars)
      invariant RenamesMore(rw, rewrites, c, j, assumps, flags)
      invariant Rewritten(c[..j], assumps, flags, rewrites, newClause, S.numVars)
    {
      var l_ij := c[j];
      assert l_ij in c;
      assert c[..j + 1] == c[..j] + [l_ij];
      if assumps[l_ij.v] == None {
        var newLit;
        ghost var before, hi := rewrites, S.numVars;
        newLit, rewrites := RewriteLiteral(l_ij, flags, S, rewrites, lo);
        RenamesLit(rw, before, rewrites, c, j, assumps, flags);
        RewrittenSnoc(c[..j], assumps, flags, before, rewrites, newClause, l_ij, hi, S.numVars);
        newClause := newClause + [newLit];
      } else if assumps[l_ij.v].value != l_ij.neg {
        sat := true;
        assert IsTrue(assumps, l_ij);
        RenamesEnd(rw, rewrites, c, j, assumps, flags);
        return;
      } else {
        assert IsFalse(assumps, l_ij);
        RenamesLit(rw, rewrites, rewrites, c, j, assumps, flags);
        RewrittenSnoc(c[..j], assumps, flags, rewrites, rewrites, newClause, l_ij, S.numVars, S.numVars);
      }
      j := j + 1;
    }
    assert c[..j] == c;
  }

  /** `r` is what becomes of the literals `ls`, none of which is true. */
  ghost predicate Rewritten(ls: Clause, a: Partial, flags: seq<bool>, rw: Rewrites, r: Clause, hi: nat) {
    && CoversLits(ls, a, flags, rw) && !SatisfiedBy(a, ls)
    && r == RewriteClause(ls, a, flags, rw) && ClauseBelow(r, hi)
  }

  lemma RewrittenSnoc(
    ls: Clause, a: Partial, flags: seq<bool>, rw: Rewrites, rw': Rewrites, r: Clause, l: Lit, hi: nat, hi': nat)
    requires Rewritten(ls, a, flags, rw, r, hi) && Extends(rw, rw') && hi <= hi'
    requires !IsTrue(a, l)
    requires IsFalse(a, l) || ((Flagged(flags, l.v) || l in rw') && RewriteLit(l, flags, rw').v < hi')
    ensures Rewritten(ls + [l], a, flags, rw', if IsFalse(a, l) then r else r + [RewriteLit(l, flags, rw')], hi')
  {
    RewriteClauseGrows(ls, a, flags, rw, rw');
    assert (ls + [l])[..|ls|] == ls;
  }

  /** A surviving literal: kept, or replaced by one of a variable made for it on first sight. */
  method RewriteLiteral(l: Lit, flags: seq<bool>, S: SatSolver.Solver, rw: Rewrites, ghost lo: nat)
    returns (newLit: Lit, rewrites: Rewrites)
    requires S.Valid() && l.v < |flags| && l.v < lo <= S.numVars
    requires FreshMap(rw, lo, S.numVars) && NoneSpare(rw, lo, S.numVars)
    modifies S`numVars
    ensures S.Valid() && S.numVars >= old(S.numVars)
    ensures FreshMap(rewrites, lo, S.numVars) && Extends(rw, rewrites) && NoneSpare(rewrites, lo, S.numVars)
    ensures forall v: nat :: MkLit(v) in rewrites <==> MkLit(v) in rw || (v == l.v && !Flagged(flags, v))
    ensures newLit == RewriteLit(l, flags, rewrites) && newLit.v < S.numVars
    ensures Flagged(flags, l.v) || l in rewrites
  {
    rewrites := rw;
    if flags[l.v] {
      newLit := l;
    } else {
      FreshLit(rw, lo, S.numVars, l);
      if l !in rewrites {
        var newVar := S.NewVar();
        var p := MkLit(l.v);
        rewrites := rewrites[p := MkLit(newVar)][Neg(p) := Neg(MkLit(newVar))];
        GrowFreshMap(rw, lo, newVar, l.v);
        FreshLit(rewrites, lo, newVar + 1, l);
      }
      newLit := rewrites[l];
    }
  }

  lemma GrowFreshMap(rw: Rewrites, lo: nat, u: nat, v: nat)
    requires FreshMap(rw, lo, u) && lo <= u && MkLit(v) !in rw
    ensures FreshMap(rw[MkLit(v) := MkLit(u)][Neg(MkLit(v)) := Neg(MkLit(u))], lo, u + 1)
    ensures Extends(rw, rw[MkLit(v) := MkLit(u)][Neg(MkLit(v)) := Neg(MkLit(u))])
    ensures NoneSpare(rw, lo, u) ==>
      NoneSpare(rw[MkLit(v) := MkLit(u)][Neg(MkLit(v)) := Neg(MkLit(u))], lo, u + 1)
    ensures forall w: nat :: MkLit(w) in rw[MkLit(v) := MkLit(u)][Neg(MkLit(v)) := Neg(MkLit(u))] <==>
      MkLit(w) in rw || w == v
  {
    var rw' := rw[MkLit(v) := MkLit(u)][Neg(MkLit(v)) := Neg(MkLit(u))];
    if NoneSpare(rw, lo, u) {
      forall u': nat | lo <= u' < u + 1
        ensures IsUsed(rw', u')
      {
        if u' < u {
          assert IsUsed(rw, u');
          var w: nat :| StandsFor(rw, u', w);
          assert MkLit(w) != MkLit(v) && MkLit(w) != Neg(MkLit(v));
          assert StandsFor(rw', u', w);
        } else {
          assert MkLit(v) != Neg(MkLit(v));
          assert StandsFor(rw', u', v);
        }
      }
    }
    forall w: nat
      ensures MkLit(w) in rw' <==> Neg(MkLit(w)) in rw'
      ensures MkLit(w) in rw' ==>
        !rw'[MkLit(w)].neg && lo <= rw'[MkLit(w)].v < u + 1 && rw'[Neg(MkLit(w))] == Neg(rw'[MkLit(w)])
    {
      assert MkLit(w) != Neg(MkLit(v));
    }
  }

  lemma SatisfiedNotFalsified(a: Partial, c: Clause)
    requires SatisfiedBy(a, c)
    ensures !FalsifiedBy(a, c)
  {
    var l :| l in c && IsTrue(a, l);
  }

  /** A falsified clause rewrites to the empty clause, and only such a one. */
  lemma {:induction false} NotEmptied(c: Clause, a: Partial, flags: seq<bool>, rw: Rewrites)
    ensures RewriteClause(c, a, flags, rw) == [] <==> FalsifiedBy(a, c)
  {
    if c != [] {
      NotEmptied(c[..|c| - 1], a, flags, rw);
      assert c == c[..|c| - 1] + [c[|c| - 1]];
    }
  }
}
