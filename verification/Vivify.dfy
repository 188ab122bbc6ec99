/**
 `ClauseVivifier::vivifyClauses2`: every clause of a list is shortened by self-subsuming
 resolution with the binary and ternary clauses in the watch lists and with the cached
 implications, or dropped when one of those clauses subsumes it.  The clauses of the
 problem proper keep exactly their models, and the learnt ones stay implied by them.
 */
module Vivify {
  import opened Cnf
  import opened Rewriting

  datatype Cl = Cl(lits: Clause, learnt: bool)

  /** An entry in the list of watches of a literal's negation. */
  datatype Watched = Bin(other: Lit, learnt: bool) | Tri(o1: Lit, o2: Lit)

  /** What the solver holds: facts, clauses of three literals and more, and watch lists. */
  datatype Base = Base(ok: bool, units: seq<Lit>, cls: seq<Cl>, watches: seq<seq<Watched>>)

  function At(ws: seq<seq<Watched>>, l: Lit): seq<Watched> {
    if ToInt(Neg(l)) < |ws| then ws[ToInt(Neg(l))] else []
  }

  ghost predicate EntryHolds(m: Model, l: Lit, e: Watched) {
    Holds(m, l) || match e case Bin(o, _) => Holds(m, o) case Tri(o1, o2) => Holds(m, o1) || Holds(m, o2)
  }

  ghost predicate WatchesHold(m: Model, ws: seq<seq<Watched>>) {
    forall l: Lit, e :: e in At(ws, l) ==> EntryHolds(m, l, e)
  }

  /** The binary clauses of the problem proper. */
  ghost predicate ProperBins(m: Model, ws: seq<seq<Watched>>) {
    forall l: Lit, e :: e in At(ws, l) && e.Bin? && !e.learnt ==> Holds(m, l) || Holds(m, e.other)
  }

  ghost predicate ProperClauses(m: Model, cs: seq<Cl>) {
    forall c :: c in cs && !c.learnt ==> SatClause(m, c.lits)
  }

  ghost predicate LearntClauses(m: Model, cs: seq<Cl>) {
    forall c :: c in cs && c.learnt ==> SatClause(m, c.lits)
  }

  /** The models of the problem proper, without learnt clauses. */
  ghost predicate Models(b: Base, m: Model) {
    b.ok && AllHold(m, b.units) && ProperClauses(m, b.cls) && ProperBins(m, b.watches)
  }

  ghost predicate CacheHolds(m: Model, cache: seq<seq<Lit>>) {
    forall l: Lit, x :: x in CacheAt(cache, l) ==> Holds(m, l) || Holds(m, x)
  }

  /** What is true if `l` is false. */
  function CacheAt(cache: seq<seq<Lit>>, l: Lit): seq<Lit> {
    if ToInt(l) < |cache| then cache[ToInt(l)] else []
  }

  /** Learnt clauses, watch lists and cache add nothing to the problem proper. */
  ghost predicate Implied(b: Base, cache: seq<seq<Lit>>) {
    forall m :: Models(b, m) ==> LearntClauses(m, b.cls) && WatchesHold(m, b.watches) && CacheHolds(m, cache)
  }

  /** No clause in the watch lists or cache has two literals of one variable. */
  ghost predicate Proper(ws: seq<seq<Watched>>, cache: seq<seq<Lit>>) {
    && (forall l: Lit, e :: e in At(ws, l) ==> ProperEntry(l, e))
    && (forall l: Lit, x :: x in CacheAt(cache, l) ==> x.v != l.v)
  }

  predicate ProperEntry(l: Lit, e: Watched) {
    match e
    case Bin(o, _) => o.v != l.v
    case Tri(o1, o2) => o1.v != l.v && o2.v != l.v && o1.v != o2.v
  }

  /** Both halves of every binary clause are there, with the same flag. */
  ghost predicate Mirrored(ws: seq<seq<Watched>>) {
    forall a: Lit, b: Lit, learnt :: Halves(ws, a, b, learnt) == Halves(ws, b, a, learnt)
  }

  function Halves(ws: seq<seq<Watched>>, a: Lit, b: Lit, learnt: bool): nat {
    multiset(At(ws, a))[Bin(b, learnt)]
  }

  ghost predicate InRange(c: Clause, n: nat) {
    forall l :: l in c ==> ToInt(l) < n && ToInt(Neg(l)) < n
  }

  // ----- flags by literal -----

  predicate Flag(seen: seq<bool>, l: Lit) {
    ToInt(l) < |seen| && seen[ToInt(l)]
  }

  lemma ToIntInjective(a: Lit, b: Lit)
    ensures ToInt(a) == ToInt(b) <==> a == b
    ensures ToInt(Neg(a)) == ToInt(Neg(b)) <==> a == b
  {
  }

  function SetFlag(seen: seq<bool>, l: Lit, b: bool): (r: seq<bool>)
    ensures |r| == |seen|
  {
    if ToInt(l) < |seen| then seen[ToInt(l) := b] else seen
  }

  lemma FlagSet(seen: seq<bool>, l: Lit, b: bool)
    requires ToInt(l) < |seen| || !b
    ensures forall x: Lit :: Flag(SetFlag(seen, l, b), x) == if x == l then b else Flag(seen, x)
  {
    forall x: Lit ensures Flag(SetFlag(seen, l, b), x) == if x == l then b else Flag(seen, x) {
      ToIntInjective(x, l);
    }
  }

  // ----- strengthening -----

  /** Some literal of the clause that is still flagged holds. */
  ghost predicate Kept(m: Model, c: Clause, seen: seq<bool>) {
    exists l :: l in c && Flag(seen, l) && Holds(m, l)
  }

  /** What the scan of one clause has established so far, for all models of the problem. */
  ghost predicate KeepsAll(b: Base, c: Clause, seen: seq<bool>) {
    forall m :: Models(b, m) ==> Kept(m, c, seen)
  }

  ghost predicate Within(c: Clause, seen: seq<bool>) {
    forall l: Lit :: Flag(seen, l) ==> l in c
  }

  /** Self-subsumption with `l or x`: the opposite of `x` may go, as `l` stays. */
  lemma DropByBin(b: Base, c: Clause, seen: seq<bool>, l: Lit, x: Lit)
    requires KeepsAll(b, c, seen) && Within(c, seen) && Flag(seen, l) && l.v != x.v
    requires forall m :: Models(b, m) ==> Holds(m, l) || Holds(m, x)
    ensures KeepsAll(b, c, SetFlag(seen, Neg(x), false)) && Within(c, SetFlag(seen, Neg(x), false))
  {
    FlagSet(seen, Neg(x), false);
    hide Models, SetFlag, Flag;
    var seen' := SetFlag(seen, Neg(x), false);
    forall m | Models(b, m) ensures Kept(m, c, seen') {
      var k :| k in c && Flag(seen, k) && Holds(m, k);
      if k == Neg(x) {
        assert l in c && Flag(seen', l) && Holds(m, l);
      } else {
        assert k in c && Flag(seen', k) && Holds(m, k);
      }
    }
  }

  /** Self-subsumption with `l or y or x`, while `l` and `y` both stay. */
  lemma DropByTri(b: Base, c: Clause, seen: seq<bool>, l: Lit, y: Lit, x: Lit)
    requires KeepsAll(b, c, seen) && Within(c, seen) && Flag(seen, l) && Flag(seen, y) && l.v != x.v && y.v != x.v
    requires forall m :: Models(b, m) ==> Holds(m, l) || Holds(m, y) || Holds(m, x)
    ensures KeepsAll(b, c, SetFlag(seen, Neg(x), false)) && Within(c, SetFlag(seen, Neg(x), false))
  {
    FlagSet(seen, Neg(x), false);
    hide Models, SetFlag, Flag;
    var seen' := SetFlag(seen, Neg(x), false);
    forall m | Models(b, m) ensures Kept(m, c, seen') {
      var k :| k in c && Flag(seen, k) && Holds(m, k);
      if k == Neg(x) {
        var z := if Holds(m, l) then l else y;
        assert z in c && Flag(seen', z) && Holds(m, z);
      } else {
        assert k in c && Flag(seen', k) && Holds(m, k);
      }
    }
  }

  // ----- the watch lists during a scan -----

  /** The same clause, but perhaps no longer learnt. */
  predicate Unlearnt(e: Watched, e': Watched) {
    e' == e || (e.Bin? && e.learnt && e' == Bin(e.other, false))
  }

  ghost predicate Flipped(ws: seq<seq<Watched>>, ws': seq<seq<Watched>>) {
    && |ws'| == |ws|
    && (forall i :: 0 <= i < |ws| ==> |ws'[i]| == |ws[i]|)
    && (forall i, k :: 0 <= i < |ws| && 0 <= k < |ws[i]| ==> Unlearnt(ws[i][k], ws'[i][k]))
  }

  lemma FlippedEntries(ws: seq<seq<Watched>>, ws': seq<seq<Watched>>, l: Lit)
    requires Flipped(ws, ws')
    ensures |At(ws', l)| == |At(ws, l)|
    ensures forall k :: 0 <= k < |At(ws, l)| ==> Unlearnt(At(ws, l)[k], At(ws', l)[k])
    ensures forall e' :: e' in At(ws', l) ==> exists e :: e in At(ws, l) && Unlearnt(e, e')
    ensures forall e :: e in At(ws, l) ==> exists e' :: e' in At(ws', l) && Unlearnt(e, e')
  {
    forall e' | e' in At(ws', l) ensures exists e :: e in At(ws, l) && Unlearnt(e, e') {
      var k :| 0 <= k < |At(ws', l)| && At(ws', l)[k] == e';
      assert At(ws, l)[k] in At(ws, l);
    }
    forall e | e in At(ws, l) ensures exists e' :: e' in At(ws', l) && Unlearnt(e, e') {
      var k :| 0 <= k < |At(ws, l)| && At(ws, l)[k] == e;
      assert At(ws', l)[k] in At(ws', l);
    }
  }

  /** Making an implied binary clause part of the problem changes no model. */
  lemma FlippedKeeps(b: Base, cache: seq<seq<Lit>>, ws': seq<seq<Watched>>)
    requires Implied(b, cache) && Proper(b.watches, cache) && Flipped(b.watches, ws')
    ensures forall m :: Models(b.(watches := ws'), m) <==> Models(b, m)
    ensures Implied(b.(watches := ws'), cache) && Proper(ws', cache)
  {
    var b' := b.(watches := ws');
    hide Flipped;
    forall l: Lit, e' | e' in At(ws', l)
      ensures ProperEntry(l, e')
      ensures exists e :: e in At(b.watches, l) && Unlearnt(e, e')
    {
      FlippedEntries(b.watches, ws', l);
    }
    forall m | WatchesHold(m, b.watches)
      ensures WatchesHold(m, ws') && ProperBins(m, ws')
    {
      forall l: Lit, e' | e' in At(ws', l) ensures EntryHolds(m, l, e') {
        var e :| e in At(b.watches, l) && Unlearnt(e, e');
        assert EntryHolds(m, l, e);
      }
      forall l: Lit, e' | e' in At(ws', l) && e'.Bin? ensures Holds(m, l) || Holds(m, e'.other) {
        assert EntryHolds(m, l, e');
      }
    }
    forall m | ProperBins(m, ws')
      ensures ProperBins(m, b.watches)
    {
      forall l: Lit, e | e in At(b.watches, l) && e.Bin? && !e.learnt
        ensures Holds(m, l) || Holds(m, e.other)
      {
        FlippedEntries(b.watches, ws', l);
      }
    }
  }

  lemma FlippedTrans(ws0: seq<seq<Watched>>, ws1: seq<seq<Watched>>, ws2: seq<seq<Watched>>)
    requires Flipped(ws0, ws1) && Flipped(ws1, ws2)
    ensures Flipped(ws0, ws2)
  {
    forall i, k | 0 <= i < |ws0| && 0 <= k < |ws0[i]| ensures Unlearnt(ws0[i][k], ws2[i][k]) {
      assert Unlearnt(ws0[i][k], ws1[i][k]) && Unlearnt(ws1[i][k], ws2[i][k]);
    }
  }

  /** One half of `a or o` loses its learnt flag. */
  function FlipHalf(ws: seq<seq<Watched>>, a: Lit, k: nat, o: Lit): seq<seq<Watched>>
    requires ToInt(Neg(a)) < |ws| && k < |At(ws, a)|
  {
    ws[ToInt(Neg(a)) := At(ws, a)[k := Bin(o, false)]]
  }

  lemma FlipCount(ws: seq<seq<Watched>>, a: Lit, k: nat, o: Lit, x: Lit, y: Lit, learnt: bool)
    requires ToInt(Neg(a)) < |ws| && k < |At(ws, a)| && At(ws, a)[k] == Bin(o, true)
    ensures Halves(FlipHalf(ws, a, k, o), x, y, learnt) == Halves(ws, x, y, learnt) +
      if x == a && y == o then (if learnt then -1 else 1) else 0
  {
    ToIntInjective(x, a);
    var s := At(ws, a);
    assert s == s[..k] + [s[k]] + s[k + 1..];
    assert s[k := Bin(o, false)] == s[..k] + [Bin(o, false)] + s[k + 1..];
  }

  lemma FlipOne(ws: seq<seq<Watched>>, a: Lit, k: nat, o: Lit)
    requires ToInt(Neg(a)) < |ws| && k < |At(ws, a)| && At(ws, a)[k] == Bin(o, true)
    ensures Flipped(ws, FlipHalf(ws, a, k, o))
  {
  }

  lemma FlipBoth(ws: seq<seq<Watched>>, x: Lit, i: nat, y: Lit, j: nat)
    requires Mirrored(ws) && x != y
    requires ToInt(Neg(x)) < |ws| && i < |At(ws, x)| && At(ws, x)[i] == Bin(y, true)
    requires var ws1 := FlipHalf(ws, x, i, y);
      ToInt(Neg(y)) < |ws1| && j < |At(ws1, y)| && At(ws1, y)[j] == Bin(x, true)
    ensures var ws' := FlipHalf(FlipHalf(ws, x, i, y), y, j, x);
      Mirrored(ws') && Flipped(ws, ws')
  {
    hide FlipHalf, Halves, At, ToInt, Flipped;
    var ws1 := FlipHalf(ws, x, i, y);
    var ws' := FlipHalf(ws1, y, j, x);
    FlipOne(ws, x, i, y);
    FlipOne(ws1, y, j, x);
    FlippedTrans(ws, ws1, ws');
    forall p: Lit, q: Lit, learnt
      ensures Halves(ws', p, q, learnt) == Halves(ws', q, p, learnt)
    {
      FlipCount(ws, x, i, y, p, q, learnt);
      FlipCount(ws, x, i, y, q, p, learnt);
      FlipCount(ws1, y, j, x, p, q, learnt);
      FlipCount(ws1, y, j, x, q, p, learnt);
    }
  }

  /** The other half of a binary clause is in the list of its other literal. */
  lemma OtherHalf(ws: seq<seq<Watched>>, x: Lit, i: nat, y: Lit)
    requires Mirrored(ws) && x != y && ToInt(Neg(x)) < |ws| && i < |At(ws, x)| && At(ws, x)[i] == Bin(y, true)
    ensures Bin(x, true) in At(FlipHalf(ws, x, i, y), y)
  {
    ToIntInjective(x, y);
    assert Bin(y, true) in multiset(At(ws, x));
    assert Halves(ws, y, x, true) == Halves(ws, x, y, true) > 0;
  }

  lemma FlippedRefl(ws: seq<seq<Watched>>)
    ensures Flipped(ws, ws)
  {
  }

  lemma FlippedSize(ws: seq<seq<Watched>>, ws': seq<seq<Watched>>)
    requires Flipped(ws, ws')
    ensures |ws'| == |ws|
  {
  }

  lemma IsSubsumed(ws: seq<seq<Watched>>, cl: Cl, l: Lit, o: Lit)
    requires l in cl.lits && o in cl.lits && (!cl.learnt ==> Bin(o, false) in At(ws, l))
    ensures !cl.learnt ==> BinSubsumes(ws, cl.lits)
  {
  }

  /** Some binary clause of the problem proper is part of `c`. */
  ghost predicate BinSubsumes(ws: seq<seq<Watched>>, c: Clause) {
    exists l: Lit, o :: l in c && o in c && Bin(o, false) in At(ws, l)
  }

  lemma StillSubsumes(ws: seq<seq<Watched>>, ws': seq<seq<Watched>>, c: Clause)
    requires Flipped(ws, ws') && BinSubsumes(ws, c)
    ensures BinSubsumes(ws', c)
  {
    var l: Lit, o :| l in c && o in c && Bin(o, false) in At(ws, l);
    FlippedEntries(ws, ws', l);
  }

  lemma EntryTrue(b: Base, cache: seq<seq<Lit>>, ws: seq<seq<Watched>>, l: Lit, k: nat)
    requires Implied(b, cache) && Proper(b.watches, cache) && Flipped(b.watches, ws) && k < |At(ws, l)|
    ensures ProperEntry(l, At(ws, l)[k])
    ensures forall m :: Models(b, m) ==> EntryHolds(m, l, At(ws, l)[k])
  {
    FlippedEntries(b.watches, ws, l);
    var e := At(b.watches, l)[k];
    assert e in At(b.watches, l);
    forall m | Models(b, m) ensures EntryHolds(m, l, At(ws, l)[k]) {
      assert EntryHolds(m, l, e);
    }
  }

  /** The ternary clause `l or o1 or o2` may take away the opposite of `o1`, then that of `o2`. */
  lemma TriStep(b: Base, c: Clause, seen: seq<bool>, l: Lit, o1: Lit, o2: Lit)
    requires KeepsAll(b, c, seen) && Within(c, seen) && ProperEntry(l, Tri(o1, o2))
    requires forall m :: Models(b, m) ==> EntryHolds(m, l, Tri(o1, o2))
    ensures KeepsAll(b, c, AfterTri(seen, l, o1, o2)) && Within(c, AfterTri(seen, l, o1, o2))
  {
    hide Models, KeepsAll, Within;
    var seen1 := if Flag(seen, o2) then SetFlag(seen, Neg(o1), false) else seen;
    if Flag(seen, l) {
      if Flag(seen, o2) {
        DropByTri(b, c, seen, l, o2, o1);
        FlagSet(seen, Neg(o1), false);
      }
      if Flag(seen1, o1) {
        DropByTri(b, c, seen1, l, o1, o2);
      }
    }
  }

  function AfterTri(seen: seq<bool>, l: Lit, o1: Lit, o2: Lit): (r: seq<bool>)
    ensures |r| == |seen|
  {
    if Flag(seen, l) then
      var seen1 := if Flag(seen, o2) then SetFlag(seen, Neg(o1), false) else seen;
      if Flag(seen1, o1) then SetFlag(seen1, Neg(o2), false) else seen1
    else seen
  }

  /** The cached implications of `l` take away the opposites of what they imply. */
  lemma CacheStep(b: Base, cache: seq<seq<Lit>>, c: Clause, seen: seq<bool>, l: Lit, x: Lit)
    requires KeepsAll(b, c, seen) && Within(c, seen) && Flag(seen, l) && x in CacheAt(cache, l)
    requires Implied(b, cache) && Proper(b.watches, cache)
    ensures KeepsAll(b, c, SetFlag(seen, Neg(x), false)) && Within(c, SetFlag(seen, Neg(x), false))
    ensures Flag(SetFlag(seen, Neg(x), false), l)
  {
    hide KeepsAll, Within;
    forall m | Models(b, m) ensures Holds(m, l) || Holds(m, x) {
      assert CacheHolds(m, cache);
    }
    DropByBin(b, c, seen, l, x);
    FlagSet(seen, Neg(x), false);
  }

  /** Flagging all literals of a clause. */
  lemma StartScan(b: Base, cl: Cl, seen: seq<bool>, cache: seq<seq<Lit>>)
    requires Implied(b, cache) && cl in b.cls && forall l: Lit :: Flag(seen, l) <==> l in cl.lits
    ensures KeepsAll(b, cl.lits, seen) && Within(cl.lits, seen)
  {
    forall m | Models(b, m) ensures Kept(m, cl.lits, seen) {
      assert SatClause(m, cl.lits);
    }
  }

  // ----- what a scan finds -----

  /** The watched clause is part of `cl`; a ternary one only counts for long learnt clauses. */
  predicate HitBy(cl: Cl, e: Watched) {
    match e
    case Bin(o, _) => o in cl.lits
    case Tri(o1, o2) => |cl.lits| > 3 && cl.learnt && o1 in cl.lits && o2 in cl.lits
  }

  ghost predicate HitAmong(es: seq<Watched>, cl: Cl, n: nat) {
    exists k: nat :: k < n && k < |es| && HitBy(cl, es[k])
  }

  /** A watched clause of one of the first `n` literals is part of `cl`. */
  ghost predicate Hit(ws: seq<seq<Watched>>, cl: Cl, n: nat) {
    exists p: nat :: p < n && p < |cl.lits| && HitAmong(At(ws, cl.lits[p]), cl, |At(ws, cl.lits[p])|)
  }

  ghost predicate Less(seen': seq<bool>, seen: seq<bool>) {
    |seen'| == |seen| && forall x: Lit :: Flag(seen', x) ==> Flag(seen, x)
  }

  /** The watched clause takes no flagged literal away any more; ternary ones only act on long clauses. */
  predicate SpentOn(seen: seq<bool>, wide: bool, e: Watched) {
    match e
    case Bin(o, _) => !Flag(seen, Neg(o))
    case Tri(o1, o2) =>
      wide ==> (Flag(seen, o2) ==> !Flag(seen, Neg(o1))) && (Flag(seen, o1) ==> !Flag(seen, Neg(o2)))
  }

  // ----- what hits and removals mean for the watched clause -----

  /** The clause that entry `e` in the list of `l` stands for. */
  function WatchedLits(l: Lit, e: Watched): set<Lit> {
    match e case Bin(o, _) => {l, o} case Tri(o1, o2) => {l, o1, o2}
  }

  /** An entry hits a clause exactly if its clause is part of it, a ternary one only if it is learnt and long. */
  lemma HitIsPart(l: Lit, cl: Cl, e: Watched)
    requires l in cl.lits
    ensures HitBy(cl, e) <==>
      (forall x :: x in WatchedLits(l, e) ==> x in cl.lits) && (e.Tri? ==> cl.learnt && |cl.lits| > 3)
  {
    if e.Bin? {
      assert e.other in WatchedLits(l, e);
    } else {
      assert e.o1 in WatchedLits(l, e) && e.o2 in WatchedLits(l, e);
    }
  }

  /** The watched clause resolves `Neg(x)` away: all its other literals are among those flagged. */
  ghost predicate Resolves(seen: seq<bool>, l: Lit, e: Watched, x: Lit) {
    && x in WatchedLits(l, e) && x != l && Flag(seen, Neg(x))
    && forall y :: y in WatchedLits(l, e) && y != x ==> Flag(seen, y)
  }

  /** An entry has nothing left to take away exactly if its clause resolves no flagged literal away. */
  lemma SpentIsResolved(seen: seq<bool>, l: Lit, wide: bool, e: Watched)
    requires Flag(seen, l) && ProperEntry(l, e)
    ensures SpentOn(seen, wide, e) <==> (e.Tri? && !wide) || forall x :: !Resolves(seen, l, e, x)
  {
    if e.Bin? {
      assert Resolves(seen, l, e, e.other) <==> Flag(seen, Neg(e.other));
    } else {
      assert Resolves(seen, l, e, e.o1) <==> Flag(seen, e.o2) && Flag(seen, Neg(e.o1));
      assert Resolves(seen, l, e, e.o2) <==> Flag(seen, e.o1) && Flag(seen, Neg(e.o2));
    }
  }

  ghost predicate SpentAmong(seen: seq<bool>, wide: bool, es: seq<Watched>, n: nat) {
    forall k: nat :: k < n && k < |es| ==> SpentOn(seen, wide, es[k])
  }

  ghost predicate Unflagged(seen: seq<bool>, xs: seq<Lit>, n: nat) {
    forall k: nat :: k < n && k < |xs| ==> !Flag(seen, Neg(xs[k]))
  }

  /** If `l` is still there, neither its watched clauses nor its cached implications take anything away. */
  ghost predicate SpentLit(ws: seq<seq<Watched>>, cache: seq<seq<Lit>>, seen: seq<bool>, wide: bool, l: Lit) {
    Flag(seen, l) ==>
      SpentAmong(seen, wide, At(ws, l), |At(ws, l)|) && Unflagged(seen, CacheAt(cache, l), |CacheAt(cache, l)|)
  }

  ghost predicate Spent(ws: seq<seq<Watched>>, cache: seq<seq<Lit>>, seen: seq<bool>, c: Clause, n: nat) {
    forall p: nat :: p < n && p < |c| ==> SpentLit(ws, cache, seen, |c| > 3, c[p])
  }

  /** No literal of `c`, taken from a clause of the given width, can be resolved away. */
  ghost predicate Exhausted(ws: seq<seq<Watched>>, cache: seq<seq<Lit>>, wide: bool, c: Clause) {
    forall l :: l in c ==>
      && (forall e :: e in At(ws, l) ==> CannotCut(c, wide, e))
      && (forall x :: x in CacheAt(cache, l) ==> Neg(x) !in c)
  }

  predicate CannotCut(c: Clause, wide: bool, e: Watched) {
    match e
    case Bin(o, _) => Neg(o) !in c
    case Tri(o1, o2) => wide ==> !(o2 in c && Neg(o1) in c) && !(o1 in c && Neg(o2) in c)
  }

  lemma StartLess(seen: seq<bool>)
    ensures Less(seen, seen)
  {
  }

  lemma ClearedLess(seen: seq<bool>, l: Lit)
    ensures Less(SetFlag(seen, l, false), seen) && !Flag(SetFlag(seen, l, false), l)
  {
    FlagSet(seen, l, false);
  }

  lemma AfterTriSpent(seen: seq<bool>, l: Lit, o1: Lit, o2: Lit)
    ensures Less(AfterTri(seen, l, o1, o2), seen)
    ensures Flag(AfterTri(seen, l, o1, o2), l) ==> SpentOn(AfterTri(seen, l, o1, o2), true, Tri(o1, o2))
  {
    ClearedLess(seen, Neg(o1));
    var seen1 := if Flag(seen, o2) then SetFlag(seen, Neg(o1), false) else seen;
    ClearedLess(seen1, Neg(o2));
    hide SetFlag, Flag;
  }

  /** What is spent stays spent. */
  lemma StaysSpent(seen: seq<bool>, seen': seq<bool>, wide: bool, es: seq<Watched>, n: nat)
    requires SpentAmong(seen, wide, es, n) && Less(seen', seen)
    ensures SpentAmong(seen', wide, es, n)
  {
    hide Flag;
    forall k: nat | k < n && k < |es|
      ensures SpentOn(seen', wide, es[k])
    {
      assert SpentOn(seen, wide, es[k]);
    }
  }

  lemma StaysUnflagged(seen: seq<bool>, seen': seq<bool>, xs: seq<Lit>, n: nat)
    requires Unflagged(seen, xs, n) && Less(seen', seen)
    ensures Unflagged(seen', xs, n)
  {
    hide Flag;
  }

  lemma StaysSpentLit(ws: seq<seq<Watched>>, cache: seq<seq<Lit>>, seen: seq<bool>, seen': seq<bool>, c: Clause, n: nat)
    requires Spent(ws, cache, seen, c, n) && Less(seen', seen)
    ensures Spent(ws, cache, seen', c, n)
  {
    hide Flag, SpentAmong, Unflagged;
    forall p: nat | p < n && p < |c|
      ensures SpentLit(ws, cache, seen', |c| > 3, c[p])
    {
      assert SpentLit(ws, cache, seen, |c| > 3, c[p]);
      if Flag(seen', c[p]) {
        StaysSpent(seen, seen', |c| > 3, At(ws, c[p]), |At(ws, c[p])|);
        StaysUnflagged(seen, seen', CacheAt(cache, c[p]), |CacheAt(cache, c[p])|);
      }
    }
  }

  lemma NoLitYet(ws: seq<seq<Watched>>, cache: seq<seq<Lit>>, seen: seq<bool>, cl: Cl)
    ensures !Hit(ws, cl, 0) && Spent(ws, cache, seen, cl.lits, 0)
  {
  }

  /** After one more literal. */
  lemma OneMoreLit(ws: seq<seq<Watched>>, cache: seq<seq<Lit>>, seen: seq<bool>, seen': seq<bool>, cl: Cl, i: nat)
    requires i < |cl.lits| && Spent(ws, cache, seen, cl.lits, i) && Less(seen', seen)
    requires SpentLit(ws, cache, seen', |cl.lits| > 3, cl.lits[i])
    ensures Spent(ws, cache, seen', cl.lits, i + 1)
    ensures Hit(ws, cl, i + 1) <==> Hit(ws, cl, i) || HitAmong(At(ws, cl.lits[i]), cl, |At(ws, cl.lits[i])|)
  {
    hide HitAmong, SpentLit, Less;
    StaysSpentLit(ws, cache, seen, seen', cl.lits, i);
    if Hit(ws, cl, i) {
      var p: nat :| p < i && p < |cl.lits| && HitAmong(At(ws, cl.lits[p]), cl, |At(ws, cl.lits[p])|);
    }
  }

  lemma NoneYet(seen: seq<bool>, wide: bool, es: seq<Watched>, cl: Cl, xs: seq<Lit>)
    ensures SpentAmong(seen, wide, es, 0) && !HitAmong(es, cl, 0) && Unflagged(seen, xs, 0)
  {
  }

  /** After one more watch entry. */
  lemma OneMore(
      seen0: seq<bool>, seen: seq<bool>, seen': seq<bool>, wide: bool, es: seq<Watched>, cl: Cl, k: nat, l: Lit)
    requires Less(seen, seen0) && Less(seen', seen) && k < |es|
    requires Flag(seen, l) ==> SpentAmong(seen, wide, es, k)
    requires Flag(seen', l) ==> SpentOn(seen', wide, es[k])
    ensures Less(seen', seen0) && (Flag(seen', l) ==> SpentAmong(seen', wide, es, k + 1))
    ensures HitAmong(es, cl, k + 1) <==> HitAmong(es, cl, k) || HitBy(cl, es[k])
  {
    hide Flag, SpentOn, HitBy;
    if Flag(seen', l) {
      StaysSpent(seen, seen', wide, es, k);
    }
    if HitAmong(es, cl, k) {
      var j: nat :| j < k && j < |es| && HitBy(cl, es[j]);
    }
  }

  /** After one more cached implication. */
  lemma OneMoreCached(seen0: seq<bool>, seen: seq<bool>, wide: bool, es: seq<Watched>, xs: seq<Lit>, k: nat)
    requires Less(seen, seen0) && k < |xs| && SpentAmong(seen, wide, es, |es|) && Unflagged(seen, xs, k)
    ensures var seen' := SetFlag(seen, Neg(xs[k]), false);
      Less(seen', seen0) && SpentAmong(seen', wide, es, |es|) && Unflagged(seen', xs, k + 1)
  {
    var seen' := SetFlag(seen, Neg(xs[k]), false);
    ClearedLess(seen, Neg(xs[k]));
    hide Flag, SetFlag;
    StaysSpent(seen, seen', wide, es, |es|);
    StaysUnflagged(seen, seen', xs, k);
  }

  /** What a scan leaves is exhausted, and so is every part of that. */
  lemma SpentExhausts(ws: seq<seq<Watched>>, cache: seq<seq<Lit>>, seen: seq<bool>, c: Clause, part: Clause)
    requires Spent(ws, cache, seen, c, |c|) && forall l :: l in part ==> l in c && Flag(seen, l)
    ensures Exhausted(ws, cache, |c| > 3, part)
  {
    hide Flag;
    forall l | l in part
      ensures forall e :: e in At(ws, l) ==> CannotCut(part, |c| > 3, e)
      ensures forall x :: x in CacheAt(cache, l) ==> Neg(x) !in part
    {
      var p: nat :| p < |c| && c[p] == l;
      assert SpentLit(ws, cache, seen, |c| > 3, c[p]);
      forall e | e in At(ws, l)
        ensures CannotCut(part, |c| > 3, e)
      {
        var k: nat :| k < |At(ws, l)| && At(ws, l)[k] == e;
        assert SpentOn(seen, |c| > 3, At(ws, l)[k]);
      }
    }
  }

  lemma PartsExhausted(ws: seq<seq<Watched>>, cache: seq<seq<Lit>>, wide: bool, c: Clause, parts: seq<Cl>)
    requires Exhausted(ws, cache, wide, c) && forall p :: p in parts ==> forall l :: l in p.lits ==> l in c
    ensures forall p :: p in parts ==> Exhausted(ws, cache, wide, p.lits)
  {
    forall p, l, e | p in parts && l in p.lits && e in At(ws, l)
      ensures CannotCut(p.lits, wide, e)
    {
      assert CannotCut(c, wide, e);
    }
  }

  lemma FlagsWithin(c: Clause, seen: seq<bool>, seenSubs: seq<bool>)
    requires Within(c, seen) && forall l: Lit :: Flag(seenSubs, l) <==> l in c
    ensures Within(c, seenSubs)
  {
  }

  // ----- taking clauses out and putting them in -----

  /** Some ternary watch entries are gone, nothing else. */
  ghost predicate Fewer(ws: seq<seq<Watched>>, ws': seq<seq<Watched>>) {
    && |ws'| == |ws|
    && (forall l: Lit, e :: e in At(ws', l) ==> e in At(ws, l))
    && (forall l: Lit, e :: e in At(ws, l) && e.Bin? ==> e in At(ws', l))
    && (forall a: Lit, b: Lit, learnt :: Halves(ws', a, b, learnt) == Halves(ws, a, b, learnt))
  }

  lemma CutOut(s: seq<Watched>, k: nat)
    requires k < |s|
    ensures multiset(s) == multiset(s[..k] + s[k + 1..]) + multiset{s[k]}
    ensures forall e :: e in s[..k] + s[k + 1..] ==> e in s
    ensures forall e :: e in s && e != s[k] ==> e in s[..k] + s[k + 1..]
  {
    var r := s[..k] + s[k + 1..];
    assert s == s[..k] + [s[k]] + s[k + 1..];
    forall e | e in s && e != s[k] ensures e in r {
      var p :| 0 <= p < |s| && s[p] == e;
      assert if p < k then r[p] == e else r[p - 1] == e;
    }
  }

  lemma FewerOne(ws: seq<seq<Watched>>, i: nat, k: nat)
    requires i < |ws| && k < |ws[i]| && ws[i][k].Tri?
    ensures Fewer(ws, ws[i := ws[i][..k] + ws[i][k + 1..]])
  {
    CutOut(ws[i], k);
  }

  /** `rest` is `cls` without one clause, which the rest of the problem implies if it was not learnt. */
  lemma DropClause(b: Base, cache: seq<seq<Lit>>, cl: Cl, rest: seq<Cl>, ws': seq<seq<Watched>>)
    requires Implied(b, cache) && Proper(b.watches, cache) && Mirrored(b.watches) && Fewer(b.watches, ws')
    requires forall c :: c in b.cls <==> c == cl || c in rest
    requires !cl.learnt ==> BinSubsumes(b.watches, cl.lits)
    ensures var b' := Base(b.ok, b.units, rest, ws');
      Implied(b', cache) && Proper(ws', cache) && Mirrored(ws') && forall m :: Models(b', m) <==> Models(b, m)
  {
    var b' := Base(b.ok, b.units, rest, ws');
    forall m ensures Models(b', m) <==> Models(b, m) {
      assert ProperBins(m, ws') <==> ProperBins(m, b.watches);
      if ProperBins(m, b.watches) && !cl.learnt {
        var l: Lit, o :| l in cl.lits && o in cl.lits && Bin(o, false) in At(b.watches, l);
        assert Holds(m, l) || Holds(m, Bin(o, false).other);
        assert SatClause(m, cl.lits);
      }
    }
    forall m | Models(b', m)
      ensures LearntClauses(m, rest) && WatchesHold(m, ws') && CacheHolds(m, cache)
    {
      assert Models(b, m);
      assert WatchesHold(m, b.watches);
    }
  }

  /** What adding the clause `lits` may do: `ret` is what goes into the list. */
  ghost predicate Adds(b: Base, b': Base, lits: Clause, learnt: bool, ret: seq<Cl>) {
    && (forall m :: Models(b', m) ==> Models(b, m) && (!learnt ==> SatClause(m, lits)))
    && (forall m :: Models(b, m) && SatClause(m, lits) ==> Models(b', m))
    && (forall m :: Models(b, m) && SatClause(m, lits) && WatchesHold(m, b.watches) ==>
        WatchesHold(m, b'.watches) && forall c :: c in ret ==> SatClause(m, c.lits))
    && (forall c :: c in ret ==> c.learnt == learnt && forall l :: l in c.lits ==> l in lits)
  }

  /** A clause is replaced by a shorter one that the problem implies. */
  lemma ReplaceClause(b: Base, cache: seq<seq<Lit>>, cl: Cl, lits: Clause, rest: seq<Cl>, ws': seq<seq<Watched>>,
      b': Base, ret: seq<Cl>)
    requires Implied(b, cache) && Fewer(b.watches, ws')
    requires forall c :: c in b.cls <==> c == cl || c in rest
    requires forall l :: l in lits ==> l in cl.lits
    requires forall m :: Models(b, m) ==> SatClause(m, lits)
    requires Adds(Base(b.ok, b.units, rest, ws'), b', lits, cl.learnt, ret) && b'.cls == rest + ret
    ensures Implied(b', cache) && forall m :: Models(b', m) <==> Models(b, m)
  {
    var b0 := Base(b.ok, b.units, rest, ws');
    forall m | Models(b, m)
      ensures Models(b0, m) && WatchesHold(m, ws')
    {
      assert WatchesHold(m, b.watches);
    }
    forall m ensures Models(b', m) <==> Models(b, m) {
      if Models(b', m) {
        assert Models(b0, m);
        if !cl.learnt {
          assert SatClause(m, lits);
        }
        assert ProperBins(m, b.watches);
      }
    }
    forall m | Models(b', m)
      ensures LearntClauses(m, b'.cls) && WatchesHold(m, b'.watches) && CacheHolds(m, cache)
    {
      assert Models(b, m) && WatchesHold(m, ws');
      assert LearntClauses(m, b.cls);
    }
  }

  /** One more entry in the list of `l`. */
  function WithEntry(ws: seq<seq<Watched>>, l: Lit, e: Watched): (r: seq<seq<Watched>>)
    ensures |r| == |ws|
  {
    if ToInt(Neg(l)) < |ws| then ws[ToInt(Neg(l)) := ws[ToInt(Neg(l))] + [e]] else ws
  }

  lemma EntryAdded(ws: seq<seq<Watched>>, l: Lit, e: Watched)
    requires ToInt(Neg(l)) < |ws|
    ensures forall x: Lit :: At(WithEntry(ws, l, e), x) == if x == l then At(ws, x) + [e] else At(ws, x)
  {
    forall x: Lit ensures At(WithEntry(ws, l, e), x) == if x == l then At(ws, x) + [e] else At(ws, x) {
      ToIntInjective(x, l);
    }
  }

  lemma OtherVar(x: Lit, y: Lit)
    requires x != y && y != Neg(x)
    ensures x.v != y.v
  {
  }

  lemma NegNeg(l: Lit)
    ensures Neg(Neg(l)) == l && Neg(l) != l
  {
  }

  /** The literals that are not false mean the same as all. */
  ghost predicate Simplified(b: Base, ps: Clause, kept: Clause) {
    && NoDup(kept) && (forall l :: l in kept ==> l in ps && Neg(l) !in kept)
    && (forall m :: AllHold(m, b.units) ==> (SatClause(m, ps) <==> SatClause(m, kept)))
  }

  lemma KeptMeans(b: Base, ps: Clause, kept: Clause)
    requires NoDup(kept) && forall l :: l in kept ==> l in ps && Neg(l) !in kept
    requires forall l :: l in ps ==> l in kept || Neg(l) in b.units
    ensures Simplified(b, ps, kept)
  {
    forall m | AllHold(m, b.units) && SatClause(m, ps) ensures SatClause(m, kept) {
      var l :| l in ps && Holds(m, l);
      assert Neg(l) in b.units ==> Holds(m, Neg(l));
    }
  }

  lemma AddDone(b: Base, ps: Clause, learnt: bool)
    requires exists l :: l in ps && (l in b.units || Neg(l) in ps)
    ensures Adds(b, b, ps, learnt, [])
  {
    var l :| l in ps && (l in b.units || Neg(l) in ps);
    forall m | AllHold(m, b.units) ensures SatClause(m, ps) {
      assert Holds(m, l) || Holds(m, Neg(l));
    }
  }

  lemma AddEmpty(b: Base, ps: Clause, kept: Clause, learnt: bool)
    requires Simplified(b, ps, kept) && kept == []
    ensures Adds(b, b.(ok := false), ps, learnt, [])
  {
    forall m | Models(b, m) ensures !SatClause(m, ps) {
      assert !SatClause(m, kept);
    }
  }

  lemma AddFact(b: Base, ps: Clause, kept: Clause, learnt: bool)
    requires Simplified(b, ps, kept) && |kept| == 1
    ensures Adds(b, b.(units := b.units + [kept[0]]), ps, learnt, [])
    ensures exists l :: l in ps && l in b.units + [kept[0]]
  {
    var b' := b.(units := b.units + [kept[0]]);
    assert kept[0] in kept && kept[0] in b'.units;
    forall m ensures Models(b', m) <==> Models(b, m) && SatClause(m, ps) {
      if AllHold(m, b.units) {
        assert SatClause(m, kept) <==> Holds(m, kept[0]);
        assert AllHold(m, b'.units) <==> Holds(m, kept[0]);
      }
      if AllHold(m, b'.units) {
        assert AllHold(m, b.units);
      }
    }
  }

  lemma HalvesAdded(ws: seq<seq<Watched>>, x: Lit, e: Watched, p: Lit, q: Lit, f: bool)
    requires ToInt(Neg(x)) < |ws|
    ensures Halves(WithEntry(ws, x, e), p, q, f) == Halves(ws, p, q, f) + if p == x && e == Bin(q, f) then 1 else 0
  {
    EntryAdded(ws, x, e);
  }

  lemma BinMirrored(ws: seq<seq<Watched>>, x: Lit, y: Lit, learnt: bool)
    requires Mirrored(ws) && x != y && ToInt(Neg(x)) < |ws| && ToInt(Neg(y)) < |ws|
    ensures Mirrored(WithEntry(WithEntry(ws, x, Bin(y, learnt)), y, Bin(x, learnt)))
  {
    hide At, WithEntry, Halves;
    var ws1 := WithEntry(ws, x, Bin(y, learnt));
    var ws2 := WithEntry(ws1, y, Bin(x, learnt));
    forall p: Lit, q: Lit, f ensures Halves(ws2, p, q, f) == Halves(ws2, q, p, f) {
      HalvesAdded(ws, x, Bin(y, learnt), p, q, f);
      HalvesAdded(ws, x, Bin(y, learnt), q, p, f);
      HalvesAdded(ws1, y, Bin(x, learnt), p, q, f);
      HalvesAdded(ws1, y, Bin(x, learnt), q, p, f);
    }
  }

  lemma TriMirrored(ws: seq<seq<Watched>>, x: Lit, o1: Lit, o2: Lit)
    requires Mirrored(ws) && ToInt(Neg(x)) < |ws|
    ensures Mirrored(WithEntry(ws, x, Tri(o1, o2)))
  {
    hide At, WithEntry, Halves;
    forall p: Lit, q: Lit, f
      ensures Halves(WithEntry(ws, x, Tri(o1, o2)), p, q, f) == Halves(WithEntry(ws, x, Tri(o1, o2)), q, p, f)
    {
      HalvesAdded(ws, x, Tri(o1, o2), p, q, f);
      HalvesAdded(ws, x, Tri(o1, o2), q, p, f);
    }
  }

  lemma EntryProper(ws: seq<seq<Watched>>, cache: seq<seq<Lit>>, x: Lit, e: Watched)
    requires Proper(ws, cache) && ProperEntry(x, e) && ToInt(Neg(x)) < |ws|
    ensures Proper(WithEntry(ws, x, e), cache)
    ensures forall l: Lit, e' :: e' in At(ws, l) ==> e' in At(WithEntry(ws, x, e), l)
  {
    EntryAdded(ws, x, e);
  }

  /** The two halves of `x or y` are the only new entries. */
  ghost predicate WithHalves(ws: seq<seq<Watched>>, ws': seq<seq<Watched>>, x: Lit, y: Lit, learnt: bool) {
    forall l: Lit, e :: e in At(ws', l) <==>
      e in At(ws, l) || (l == x && e == Bin(y, learnt)) || (l == y && e == Bin(x, learnt))
  }

  lemma BinShape(ws0: seq<seq<Watched>>, cache: seq<seq<Lit>>, x: Lit, y: Lit, learnt: bool)
    requires Mirrored(ws0) && Proper(ws0, cache) && x.v != y.v && ToInt(Neg(x)) < |ws0| && ToInt(Neg(y)) < |ws0|
    ensures var ws := WithEntry(WithEntry(ws0, x, Bin(y, learnt)), y, Bin(x, learnt));
      Mirrored(ws) && Proper(ws, cache) && WithHalves(ws0, ws, x, y, learnt)
  {
    var ws1 := WithEntry(ws0, x, Bin(y, learnt));
    BinMirrored(ws0, x, y, learnt);
    EntryAdded(ws0, x, Bin(y, learnt));
    EntryAdded(ws1, y, Bin(x, learnt));
    hide Mirrored, WithEntry, At, ToInt;
    EntryProper(ws0, cache, x, Bin(y, learnt));
    EntryProper(ws1, cache, y, Bin(x, learnt));
  }

  lemma HalvesMean(m: Model, ws: seq<seq<Watched>>, ws': seq<seq<Watched>>, x: Lit, y: Lit, learnt: bool)
    requires WithHalves(ws, ws', x, y, learnt)
    ensures ProperBins(m, ws') <==> ProperBins(m, ws) && (learnt || Holds(m, x) || Holds(m, y))
    ensures WatchesHold(m, ws) && (Holds(m, x) || Holds(m, y)) ==> WatchesHold(m, ws')
  {
    hide At, Holds;
    assert Bin(y, learnt) in At(ws', x);
    if ProperBins(m, ws') && !learnt {
      assert Holds(m, x) || Holds(m, Bin(y, learnt).other);
    }
  }

  lemma AddBinary(b: Base, cache: seq<seq<Lit>>, ps: Clause, kept: Clause, learnt: bool)
    requires Simplified(b, ps, kept) && |kept| == 2 && InRange(ps, |b.watches|)
    requires Mirrored(b.watches) && Proper(b.watches, cache)
    ensures var ws := WithEntry(WithEntry(b.watches, kept[0], Bin(kept[1], learnt)), kept[1], Bin(kept[0], learnt));
      && Mirrored(ws) && Proper(ws, cache) && Adds(b, b.(watches := ws), ps, learnt, [])
      && (forall l: Lit, e :: e in At(b.watches, l) ==> e in At(ws, l))
      && (!learnt ==> BinSubsumes(ws, ps))
  {
    var x, y := kept[0], kept[1];
    assert x in kept && y in kept && x != y;
    OtherVar(x, y);
    BinShape(b.watches, cache, x, y, learnt);
    var ws := WithEntry(WithEntry(b.watches, x, Bin(y, learnt)), y, Bin(x, learnt));
    hide At, WithEntry, Mirrored, Proper, ToInt, InRange, Adds;
    assert Bin(y, learnt) in At(ws, x);
    BinAdds(b, ws, ps, kept, learnt);
  }

  lemma BinAdds(b: Base, ws: seq<seq<Watched>>, ps: Clause, kept: Clause, learnt: bool)
    requires Simplified(b, ps, kept) && |kept| == 2 && WithHalves(b.watches, ws, kept[0], kept[1], learnt)
    ensures Adds(b, b.(watches := ws), ps, learnt, [])
  {
    var x, y := kept[0], kept[1];
    assert x in kept && y in kept;
    hide At, WithEntry, Mirrored, Proper, ToInt, InRange, Holds, ProperBins, WatchesHold, ProperClauses, WithHalves;
    forall m
      ensures SatClause(m, kept) <==> Holds(m, x) || Holds(m, y)
      ensures ProperBins(m, ws) <==> ProperBins(m, b.watches) && (learnt || Holds(m, x) || Holds(m, y))
      ensures WatchesHold(m, b.watches) && (Holds(m, x) || Holds(m, y)) ==> WatchesHold(m, ws)
    {
      HalvesMean(m, b.watches, ws, x, y, learnt);
    }
  }

  /** A longer clause goes into the list, and into the watch lists if it has three literals. */
  function LongWatches(ws: seq<seq<Watched>>, kept: Clause): seq<seq<Watched>>
    requires |kept| >= 3
  {
    if |kept| == 3 then
      WithEntry(WithEntry(WithEntry(ws, kept[0], Tri(kept[1], kept[2])), kept[1], Tri(kept[0], kept[2])),
        kept[2], Tri(kept[0], kept[1]))
    else ws
  }

  lemma TriAdded(b: Base, cache: seq<seq<Lit>>, kept: Clause)
    requires |kept| == 3 && InRange(kept, |b.watches|) && Mirrored(b.watches) && Proper(b.watches, cache)
    requires NoDup(kept) && forall l :: l in kept ==> Neg(l) !in kept
    ensures var ws := LongWatches(b.watches, kept);
      && Mirrored(ws) && Proper(ws, cache)
      && (forall l: Lit, e :: e in At(b.watches, l) ==> e in At(ws, l))
      && (forall l: Lit, e :: e in At(ws, l) ==> e in At(b.watches, l) || TriOf(kept, l, e))
  {
    var x, y, z := kept[0], kept[1], kept[2];
    assert x in kept && y in kept && z in kept;
    OtherVar(x, y);
    OtherVar(x, z);
    OtherVar(y, z);
    var ws1 := WithEntry(b.watches, x, Tri(y, z));
    var ws2 := WithEntry(ws1, y, Tri(x, z));
    TriMirrored(b.watches, x, y, z);
    TriMirrored(ws1, y, x, z);
    TriMirrored(ws2, z, x, y);
    hide At, WithEntry, Mirrored, ToInt;
    EntryProper(b.watches, cache, x, Tri(y, z));
    EntryProper(ws1, cache, y, Tri(x, z));
    EntryProper(ws2, cache, z, Tri(x, y));
    TriEntriesOnly(b.watches, kept);
  }

  lemma TriEntriesOnly(ws0: seq<seq<Watched>>, kept: Clause)
    requires |kept| == 3 && InRange(kept, |ws0|)
    ensures forall l: Lit, e :: e in At(LongWatches(ws0, kept), l) ==> e in At(ws0, l) || TriOf(kept, l, e)
  {
    hide At, WithEntry, ToInt, TriOf;
    var x, y, z := kept[0], kept[1], kept[2];
    Indexed(ws0, kept, x);
    Indexed(ws0, kept, y);
    Indexed(ws0, kept, z);
    var ws1 := WithEntry(ws0, x, Tri(y, z));
    var ws2 := WithEntry(ws1, y, Tri(x, z));
    EntryAdded(ws0, x, Tri(y, z));
    EntryAdded(ws1, y, Tri(x, z));
    EntryAdded(ws2, z, Tri(x, y));
    TriIsOf(kept);
  }

  lemma Indexed(ws: seq<seq<Watched>>, c: Clause, l: Lit)
    requires InRange(c, |ws|) && l in c
    ensures ToInt(Neg(l)) < |ws|
  {
  }

  lemma TriIsOf(kept: Clause)
    requires |kept| == 3
    ensures TriOf(kept, kept[0], Tri(kept[1], kept[2])) && TriOf(kept, kept[1], Tri(kept[0], kept[2]))
    ensures TriOf(kept, kept[2], Tri(kept[0], kept[1]))
  {
  }

  ghost predicate TriOf(kept: Clause, l: Lit, e: Watched) {
    e.Tri? && l in kept && forall m :: SatClause(m, kept) ==> EntryHolds(m, l, e)
  }

  lemma AddLong(b: Base, cache: seq<seq<Lit>>, ps: Clause, kept: Clause, learnt: bool)
    requires Simplified(b, ps, kept) && |kept| >= 3 && InRange(ps, |b.watches|)
    requires Mirrored(b.watches) && Proper(b.watches, cache)
    ensures var ws := LongWatches(b.watches, kept);
      && Mirrored(ws) && Proper(ws, cache)
      && Adds(b, Base(b.ok, b.units, b.cls + [Cl(kept, learnt)], ws), ps, learnt, [Cl(kept, learnt)])
      && (forall l: Lit, e :: e in At(b.watches, l) ==> e in At(ws, l))
  {
    var ws := LongWatches(b.watches, kept);
    if |kept| == 3 {
      TriAdded(b, cache, kept);
    }
    hide At, LongWatches, Mirrored, Proper, ToInt, InRange, TriOf, Adds;
    LongAdds(b, ws, ps, kept, learnt);
  }

  lemma LongAdds(b: Base, ws: seq<seq<Watched>>, ps: Clause, kept: Clause, learnt: bool)
    requires Simplified(b, ps, kept)
    requires forall l: Lit, e :: e in At(b.watches, l) ==> e in At(ws, l)
    requires forall l: Lit, e :: e in At(ws, l) ==> e in At(b.watches, l) || TriOf(kept, l, e)
    ensures Adds(b, Base(b.ok, b.units, b.cls + [Cl(kept, learnt)], ws), ps, learnt, [Cl(kept, learnt)])
  {
    var c := Cl(kept, learnt);
    var b' := Base(b.ok, b.units, b.cls + [c], ws);
    hide At, SatClause, TriOf, ProperBins, WatchesHold, ProperClauses;
    forall m
      ensures ProperBins(m, ws) <==> ProperBins(m, b.watches)
      ensures WatchesHold(m, b.watches) && SatClause(m, kept) ==> WatchesHold(m, ws)
      ensures ProperClauses(m, b'.cls) <==> ProperClauses(m, b.cls) && (!learnt ==> SatClause(m, kept))
    {
      TriEntries(m, b.watches, ws, kept);
      MoreClauses(m, b.cls, c);
    }
  }

  lemma MoreClauses(m: Model, cs: seq<Cl>, c: Cl)
    ensures ProperClauses(m, cs + [c]) <==> ProperClauses(m, cs) && (!c.learnt ==> SatClause(m, c.lits))
  {
    assert c in cs + [c];
    assert forall d :: d in cs ==> d in cs + [c];
  }

  lemma TriEntries(m: Model, ws: seq<seq<Watched>>, ws': seq<seq<Watched>>, kept: Clause)
    requires forall l: Lit, e :: e in At(ws, l) ==> e in At(ws', l)
    requires forall l: Lit, e :: e in At(ws', l) ==> e in At(ws, l) || TriOf(kept, l, e)
    ensures ProperBins(m, ws') <==> ProperBins(m, ws)
    ensures WatchesHold(m, ws) && SatClause(m, kept) ==> WatchesHold(m, ws')
  {
  }

  ghost predicate Sound(b: Base, cache: seq<seq<Lit>>) {
    Implied(b, cache) && Proper(b.watches, cache) && Mirrored(b.watches)
  }

  /** A clause of the problem that need not be in the list any more. */
  ghost predicate Settled(b: Base, c: Clause) {
    BinSubsumes(b.watches, c) || exists l :: l in c && (l in b.units || Neg(l) in c)
  }

  /** Facts and binary clauses of the problem are never lost. */
  ghost predicate Grows(b: Base, b': Base) {
    && b.units <= b'.units
    && (forall l: Lit, o :: Bin(o, false) in At(b.watches, l) ==> Bin(o, false) in At(b'.watches, l))
  }

  lemma KeptImplied(b: Base, c: Clause, seen: seq<bool>, lits: Clause)
    requires KeepsAll(b, c, seen) && forall l: Lit :: l in lits <==> l in c && Flag(seen, l)
    ensures forall m :: Models(b, m) ==> SatClause(m, lits)
  {
    forall m | Models(b, m) ensures SatClause(m, lits) {
      assert Kept(m, c, seen);
    }
  }

  lemma FewerSound(b: Base, b': Base, cache: seq<seq<Lit>>)
    requires Fewer(b.watches, b'.watches) && Proper(b.watches, cache) && Mirrored(b.watches)
    ensures Proper(b'.watches, cache) && Mirrored(b'.watches)
  {
  }

  lemma AddedLits(b: Base, b': Base, lits: Clause, learnt: bool, ret: seq<Cl>)
    requires Adds(b, b', lits, learnt, ret)
    ensures forall c :: c in ret ==> c.learnt == learnt && forall l :: l in c.lits ==> l in lits
  {
  }

  lemma FlippedGrows(b: Base, b': Base)
    requires Flipped(b.watches, b'.watches) && b'.units == b.units
    ensures Grows(b, b')
  {
    forall l: Lit, o | Bin(o, false) in At(b.watches, l) ensures Bin(o, false) in At(b'.watches, l) {
      FlippedEntries(b.watches, b'.watches, l);
    }
  }

  lemma ShrinkGrows(b: Base, b': Base)
    requires Fewer(b.watches, b'.watches) && b'.units == b.units
    ensures Grows(b, b')
  {
    forall l: Lit, o | Bin(o, false) in At(b.watches, l) ensures Bin(o, false) in At(b'.watches, l) {
      var e := Bin(o, false);
      assert e in At(b.watches, l) && e.Bin?;
    }
  }

  lemma GrowsTrans(b0: Base, b1: Base, b2: Base)
    requires Grows(b0, b1) && Grows(b1, b2)
    ensures Grows(b0, b2)
  {
  }

  /** What settles a part of a clause settles the clause. */
  lemma PartSettles(b: Base, part: Clause, c: Clause)
    requires Settled(b, part) && forall l :: l in part ==> l in c
    ensures Settled(b, c)
  {
  }

  lemma SubsumedSettles(b: Base, c: Clause)
    requires BinSubsumes(b.watches, c)
    ensures Settled(b, c)
  {
  }

  /** The order of the clauses does not matter. */
  lemma SameClauses(b: Base, b': Base, cache: seq<seq<Lit>>)
    requires b' == b.(cls := b'.cls) && forall c :: c in b.cls <==> c in b'.cls
    ensures forall m :: Models(b', m) <==> Models(b, m)
    ensures Sound(b, cache) ==> Sound(b', cache)
  {
    forall m
      ensures ProperClauses(m, b'.cls) <==> ProperClauses(m, b.cls)
      ensures LearntClauses(m, b'.cls) <==> LearntClauses(m, b.cls)
    {
    }
  }

  lemma StaysSettled(b: Base, b': Base, c: Clause)
    requires Grows(b, b') && Settled(b, c)
    ensures Settled(b', c)
  {
  }

  // ----- the steps of adding and detaching, exactly -----

  /** `addClauseInt` first: what is left of `ps` after `kept`, or nothing if the clause is true as it is. */
  function Reduced(units: seq<Lit>, ps: Clause, kept: Clause): Option<Clause> {
    if ps == [] then Some(kept)
    else if ps[0] in units || Neg(ps[0]) in kept then None
    else Reduced(units, ps[1..], if Neg(ps[0]) !in units && ps[0] !in kept then kept + [ps[0]] else kept)
  }

  lemma ReducedStep(units: seq<Lit>, ps: Clause, i: nat, kept: Clause)
    requires i <= |ps|
    ensures Reduced(units, ps[i..], kept) ==
      if i == |ps| then Some(kept)
      else if ps[i] in units || Neg(ps[i]) in kept then None
      else Reduced(units, ps[i + 1..], if Neg(ps[i]) !in units && ps[i] !in kept then kept + [ps[i]] else kept)
  {
    assert i < |ps| ==> ps[i..][1..] == ps[i + 1..];
  }

  /** The list without the first `e`. */
  function WithoutFirst(es: seq<Watched>, e: Watched): seq<Watched> {
    if es == [] then []
    else if es[0] == e then es[1..]
    else [es[0]] + WithoutFirst(es[1..], e)
  }

  lemma {:induction false} WithoutFirstAt(es: seq<Watched>, e: Watched, k: nat)
    requires k <= |es| && (forall j :: 0 <= j < k ==> es[j] != e) && (k < |es| ==> es[k] == e)
    ensures WithoutFirst(es, e) == if k < |es| then es[..k] + es[k + 1..] else es
  {
    if k > 0 {
      assert forall j :: 0 <= j < k - 1 ==> es[1..][j] == es[j + 1];
      WithoutFirstAt(es[1..], e, k - 1);
      assert es == [es[0]] + es[1..];
      if k < |es| {
        assert es[..k] + es[k + 1..] == [es[0]] + (es[1..][..k - 1] + es[1..][k..]);
      }
    } else if k < |es| {
      assert es[..0] + es[1..] == es[1..];
    }
  }

  function WithoutTri(ws: seq<seq<Watched>>, l: Lit, o1: Lit, o2: Lit): (r: seq<seq<Watched>>)
    ensures |r| == |ws|
  {
    if ToInt(Neg(l)) < |ws| then ws[ToInt(Neg(l)) := WithoutFirst(ws[ToInt(Neg(l))], Tri(o1, o2))] else ws
  }

  /** A ternary clause goes from its three lists; longer ones are not in these lists. */
  function Detached(ws: seq<seq<Watched>>, c: Clause): (r: seq<seq<Watched>>)
    ensures |r| == |ws|
  {
    if |c| == 3 then
      WithoutTri(WithoutTri(WithoutTri(ws, c[0], c[1], c[2]), c[1], c[0], c[2]), c[2], c[0], c[1])
    else ws
  }

  lemma {:induction false} WithoutFirstTakes(es: seq<Watched>, e: Watched)
    ensures multiset(WithoutFirst(es, e)) == multiset(es) - multiset{e}
  {
    if es != [] {
      assert es == [es[0]] + es[1..];
      if es[0] != e {
        WithoutFirstTakes(es[1..], e);
      }
    }
  }

  lemma TriTaken(ws: seq<seq<Watched>>, l: Lit, o1: Lit, o2: Lit, x: Lit)
    requires ToInt(Neg(l)) < |ws|
    ensures multiset(At(WithoutTri(ws, l, o1, o2), x)) ==
      multiset(At(ws, x)) - if x == l then multiset{Tri(o1, o2)} else multiset{}
  {
    ToIntInjective(x, l);
    WithoutFirstTakes(ws[ToInt(Neg(l))], Tri(o1, o2));
  }

  /** A ternary clause loses one entry in the list of each of its literals; no other list changes. */
  lemma DetachedTakes(ws: seq<seq<Watched>>, c: Clause, x: Lit)
    requires |c| == 3 && NoDup(c) && InRange(c, |ws|)
    ensures multiset(At(Detached(ws, c), x)) == multiset(At(ws, x)) -
      if x == c[0] then multiset{Tri(c[1], c[2])}
      else if x == c[1] then multiset{Tri(c[0], c[2])}
      else if x == c[2] then multiset{Tri(c[0], c[1])} else multiset{}
  {
    assert c[0] in c && c[1] in c && c[2] in c;
    hide At, WithoutTri;
    var ws1 := WithoutTri(ws, c[0], c[1], c[2]);
    var ws2 := WithoutTri(ws1, c[1], c[0], c[2]);
    TriTaken(ws, c[0], c[1], c[2], x);
    TriTaken(ws1, c[1], c[0], c[2], x);
    TriTaken(ws2, c[2], c[0], c[1], x);
  }

  /** A ternary clause gets an entry at the end of the list of each of its literals; no other list changes. */
  lemma LongWatched(ws: seq<seq<Watched>>, c: Clause, x: Lit)
    requires |c| == 3 && NoDup(c) && InRange(c, |ws|)
    ensures At(LongWatches(ws, c), x) == At(ws, x) +
      if x == c[0] then [Tri(c[1], c[2])]
      else if x == c[1] then [Tri(c[0], c[2])]
      else if x == c[2] then [Tri(c[0], c[1])] else []
  {
    assert c[0] in c && c[1] in c && c[2] in c;
    hide At, WithEntry;
    var ws1 := WithEntry(ws, c[0], Tri(c[1], c[2]));
    var ws2 := WithEntry(ws1, c[1], Tri(c[0], c[2]));
    EntryAdded(ws, c[0], Tri(c[1], c[2]));
    EntryAdded(ws1, c[1], Tri(c[0], c[2]));
    EntryAdded(ws2, c[2], Tri(c[0], c[1]));
    assert At(ws, x) + [] == At(ws, x);
  }

  /** By its length the reduced clause is a conflict, a fact, a binary clause or a clause to be returned. */
  ghost predicate AddedExactly(kept: Option<Clause>, b: Base, b': Base, learnt: bool, ret: seq<Cl>) {
    match kept
    case None => b' == b && ret == []
    case Some(k) =>
      if |k| == 0 then b' == b.(ok := false) && ret == []
      else if |k| == 1 then b' == b.(units := b.units + [k[0]]) && ret == []
      else if |k| == 2 then
        && b' == b.(watches := WithEntry(WithEntry(b.watches, k[0], Bin(k[1], learnt)), k[1], Bin(k[0], learnt)))
        && ret == []
      else b' == b.(watches := LongWatches(b.watches, k)) && ret == [Cl(k, learnt)]
  }

  // ----- binary clauses through a whole pass -----

  /** No binary clause and no cached implication of a literal of `c` makes `c` redundant or takes a literal away. */
  ghost predicate Cleaned(ws: seq<seq<Watched>>, cache: seq<seq<Lit>>, c: Clause) {
    forall l :: l in c ==>
      && (forall o, learnt :: Bin(o, learnt) in At(ws, l) ==> o !in c && Neg(o) !in c)
      && (forall x :: x in CacheAt(cache, l) ==> Neg(x) !in c)
  }

  ghost predicate HasBin(ws: seq<seq<Watched>>, l: Lit, o: Lit) {
    exists learnt :: Bin(o, learnt) in At(ws, l)
  }

  /** Binary clauses stay, though perhaps no longer learnt. */
  ghost predicate BinsStay(ws: seq<seq<Watched>>, ws': seq<seq<Watched>>) {
    forall l: Lit, o :: HasBin(ws, l, o) ==> HasBin(ws', l, o)
  }

  lemma BinsStayRefl(ws: seq<seq<Watched>>)
    ensures BinsStay(ws, ws)
  {
  }

  lemma BinariesStay(ws: seq<seq<Watched>>, x: Lit, e: Watched, y: Lit, e': Watched)
    ensures BinsStay(ws, WithEntry(WithEntry(ws, x, e), y, e'))
  {
    hide BinsStay, WithEntry;
    EntryKeepsBins(ws, x, e);
    EntryKeepsBins(WithEntry(ws, x, e), y, e');
    BinsStayTrans(ws, WithEntry(ws, x, e), WithEntry(WithEntry(ws, x, e), y, e'));
  }

  lemma LongStays(ws: seq<seq<Watched>>, kept: Clause)
    requires |kept| >= 3
    ensures BinsStay(ws, LongWatches(ws, kept))
  {
    hide BinsStay, WithEntry;
    BinsStayRefl(ws);
    if |kept| == 3 {
      var ws2 := WithEntry(WithEntry(ws, kept[0], Tri(kept[1], kept[2])), kept[1], Tri(kept[0], kept[2]));
      BinariesStay(ws, kept[0], Tri(kept[1], kept[2]), kept[1], Tri(kept[0], kept[2]));
      EntryKeepsBins(ws2, kept[2], Tri(kept[0], kept[1]));
      BinsStayTrans(ws, ws2, LongWatches(ws, kept));
    }
  }

  lemma BinsStayTrans(ws0: seq<seq<Watched>>, ws1: seq<seq<Watched>>, ws2: seq<seq<Watched>>)
    requires BinsStay(ws0, ws1) && BinsStay(ws1, ws2)
    ensures BinsStay(ws0, ws2)
  {
  }

  lemma FlippedBins(ws: seq<seq<Watched>>, ws': seq<seq<Watched>>)
    requires Flipped(ws, ws')
    ensures BinsStay(ws, ws')
  {
    hide Flipped, At;
    forall l: Lit, o | HasBin(ws, l, o)
      ensures HasBin(ws', l, o)
    {
      FlippedEntries(ws, ws', l);
    }
  }

  lemma FewerBins(ws: seq<seq<Watched>>, ws': seq<seq<Watched>>)
    requires Fewer(ws, ws')
    ensures BinsStay(ws, ws')
  {
    hide At;
    forall l: Lit, o | HasBin(ws, l, o)
      ensures HasBin(ws', l, o)
    {
      var learnt :| Bin(o, learnt) in At(ws, l);
      var e := Bin(o, learnt);
      assert e in At(ws, l) && e.Bin?;
      assert e in At(ws', l);
    }
  }

  lemma EntryKeepsBins(ws: seq<seq<Watched>>, x: Lit, e: Watched)
    ensures BinsStay(ws, WithEntry(ws, x, e))
  {
    if ToInt(Neg(x)) < |ws| {
      EntryAdded(ws, x, e);
      hide At, WithEntry, ToInt;
    }
  }

  lemma HitIs(ws: seq<seq<Watched>>, cl: Cl, p: nat, k: nat)
    requires p < |cl.lits| && k < |At(ws, cl.lits[p])|
    ensures HitBy(cl, At(ws, cl.lits[p])[k]) ==> Hit(ws, cl, |cl.lits|)
  {
    var es := At(ws, cl.lits[p]);
    assert HitBy(cl, es[k]) ==> HitAmong(es, cl, |es|);
  }

  /** The part of a clause that was not hit. */
  lemma NotHitCleaned(ws: seq<seq<Watched>>, cache: seq<seq<Lit>>, cl: Cl, part: Clause)
    requires !Hit(ws, cl, |cl.lits|) && Exhausted(ws, cache, |cl.lits| > 3, part)
    requires forall l :: l in part ==> l in cl.lits
    ensures Cleaned(ws, cache, part)
  {
    forall l, o, learnt | l in part && Bin(o, learnt) in At(ws, l)
      ensures o !in part && Neg(o) !in part
    {
      assert CannotCut(part, |cl.lits| > 3, Bin(o, learnt));
      var p: nat :| p < |cl.lits| && cl.lits[p] == l;
      var k: nat :| k < |At(ws, l)| && At(ws, l)[k] == Bin(o, learnt);
      HitIs(ws, cl, p, k);
    }
  }

  lemma PartsCleaned(ws: seq<seq<Watched>>, cache: seq<seq<Lit>>, cl: Cl, parts: seq<Cl>)
    requires Hit(ws, cl, |cl.lits|) ==> parts == []
    requires forall p :: p in parts ==> Exhausted(ws, cache, |cl.lits| > 3, p.lits)
    requires forall p :: p in parts ==> forall l :: l in p.lits ==> l in cl.lits
    ensures AllCleaned(ws, cache, parts)
  {
    hide Hit, Exhausted, Cleaned;
    forall p | p in parts
      ensures Cleaned(ws, cache, p.lits)
    {
      NotHitCleaned(ws, cache, cl, p.lits);
    }
  }

  lemma CleanedEarlier(ws: seq<seq<Watched>>, ws': seq<seq<Watched>>, cache: seq<seq<Lit>>, c: Clause)
    requires Cleaned(ws', cache, c) && BinsStay(ws, ws')
    ensures Cleaned(ws, cache, c)
  {
    hide At;
    forall l, o, learnt | l in c && Bin(o, learnt) in At(ws, l)
      ensures o !in c && Neg(o) !in c
    {
      assert HasBin(ws, l, o);
      var learnt' :| Bin(o, learnt') in At(ws', l);
    }
  }

  ghost predicate AllCleaned(ws: seq<seq<Watched>>, cache: seq<seq<Lit>>, cs: seq<Cl>) {
    forall c :: c in cs ==> Cleaned(ws, cache, c.lits)
  }

  // ----- exactly which literals go -----

  /** The flags after watch entry `e` of literal `l`; ternary entries count for clauses of over three literals only. */
  function VisitFlags(seen: seq<bool>, l: Lit, wide: bool, e: Watched): (r: seq<bool>)
    ensures |r| == |seen|
  {
    var s := if e.Tri? && wide then AfterTri(seen, l, e.o1, e.o2) else seen;
    if e.Bin? && Flag(s, l) then SetFlag(s, Neg(e.other), false) else s
  }

  function EntriesFlags(seen: seq<bool>, l: Lit, wide: bool, es: seq<Watched>, k: nat): (r: seq<bool>)
    requires k <= |es|
    ensures |r| == |seen|
  {
    if k == 0 then seen else VisitFlags(EntriesFlags(seen, l, wide, es, k - 1), l, wide, es[k - 1])
  }

  function CacheFlags(seen: seq<bool>, xs: seq<Lit>, k: nat): (r: seq<bool>)
    requires k <= |xs|
    ensures |r| == |seen|
  {
    if k == 0 then seen else SetFlag(CacheFlags(seen, xs, k - 1), Neg(xs[k - 1]), false)
  }

  /** After all entries of `l`, and its cached implications if `l` is still there. */
  function LitFlags(ws: seq<seq<Watched>>, cache: seq<seq<Lit>>, wide: bool, seen: seq<bool>, l: Lit): (r: seq<bool>)
    ensures |r| == |seen|
  {
    var s := EntriesFlags(seen, l, wide, At(ws, l), |At(ws, l)|);
    if Flag(s, l) then CacheFlags(s, CacheAt(cache, l), |CacheAt(cache, l)|) else s
  }

  /** After the first `n` literals of the clause. */
  function ScanFlags(ws: seq<seq<Watched>>, cache: seq<seq<Lit>>, c: Clause, seen: seq<bool>, n: nat): (r: seq<bool>)
    requires n <= |c|
    ensures |r| == |seen|
  {
    if n == 0 then seen else LitFlags(ws, cache, |c| > 3, ScanFlags(ws, cache, c, seen, n - 1), c[n - 1])
  }

  /** The literals of `c` are flagged in addition. */
  function MarkAll(seen: seq<bool>, c: Clause): (r: seq<bool>)
    ensures |r| == |seen|
  {
    if c == [] then seen else SetFlag(MarkAll(seen, c[..|c| - 1]), c[|c| - 1], true)
  }

  /** The literals still flagged, in order, each once. */
  function KeptOf(c: Clause, seen: seq<bool>): Clause {
    if c == [] then []
    else
      var front, last := c[..|c| - 1], c[|c| - 1];
      KeptOf(front, seen) + if Flag(seen, last) && last !in front then [last] else []
  }

  lemma VisitUnlearnt(seen: seq<bool>, l: Lit, wide: bool, e: Watched, e': Watched)
    requires Unlearnt(e, e')
    ensures VisitFlags(seen, l, wide, e') == VisitFlags(seen, l, wide, e)
  {
  }

  lemma KeptNone(seen: seq<bool>)
    ensures KeptOf([], seen) == []
  {
  }

  lemma KeptStep(c: Clause, seen: seq<bool>, i: nat)
    requires i < |c|
    ensures KeptOf(c[..i + 1], seen) ==
      KeptOf(c[..i], seen) + if Flag(seen, c[i]) && c[i] !in c[..i] then [c[i]] else []
  {
    assert c[..i + 1][..i] == c[..i];
  }

  lemma MarkStep(seen: seq<bool>, c: Clause, i: nat)
    requires i < |c|
    ensures MarkAll(seen, c[..i + 1]) == SetFlag(MarkAll(seen, c[..i]), c[i], true)
  {
    assert c[..i + 1][..i] == c[..i];
  }

  /** What becomes of the clause: it is dropped, kept as it is, or what is left of it is added anew. */
  ghost predicate VivifiedAs(b: Base, b': Base, cl: Cl, kept: Clause, ret: seq<Cl>) {
    exists ws :: Flipped(b.watches, ws) && VivifiedFrom(b, ws, b', cl, kept, ret)
  }

  /** The same, given the watch lists after the scan, which may have made binary clauses permanent. */
  ghost predicate VivifiedFrom(b: Base, ws: seq<seq<Watched>>, b': Base, cl: Cl, kept: Clause, ret: seq<Cl>) {
    if Hit(b.watches, cl, |cl.lits|) then ret == [] && b' == b.(watches := Detached(ws, cl.lits))
    else if |kept| < |cl.lits| then
      AddedExactly(Reduced(b.units, kept, []), b.(watches := Detached(ws, cl.lits)), b', cl.learnt, ret)
    else ret == [cl] && b' == b.(watches := ws)
  }

  lemma ScannedWith(b: Base, ws: seq<seq<Watched>>, b': Base, cl: Cl, kept: Clause, ret: seq<Cl>)
    requires Flipped(b.watches, ws) && VivifiedFrom(b, ws, b', cl, kept, ret)
    ensures VivifiedAs(b, b', cl, kept, ret)
  {
  }

  // ----- the time a pass takes -----

  /** No list of `ws` has more than `n` entries more than in `ws0`. */
  ghost predicate Longer(ws0: seq<seq<Watched>>, ws: seq<seq<Watched>>, n: nat) {
    forall l: Lit :: |At(ws, l)| <= |At(ws0, l)| + n
  }

  lemma LongerTrans(a: seq<seq<Watched>>, b: seq<seq<Watched>>, c: seq<seq<Watched>>, n: nat, k: nat)
    requires Longer(a, b, n) && Longer(b, c, k)
    ensures Longer(a, c, n + k)
  {
    forall l: Lit
      ensures |At(c, l)| <= |At(a, l)| + n + k
    {
      assert |At(b, l)| <= |At(a, l)| + n;
    }
  }

  lemma LongerMore(a: seq<seq<Watched>>, b: seq<seq<Watched>>)
    requires Longer(a, b, 0)
    ensures Longer(a, b, 1)
  {
    forall l: Lit ensures |At(b, l)| <= |At(a, l)| + 1 {
      assert |At(b, l)| <= |At(a, l)| + 0;
    }
  }

  lemma LongerSame(ws: seq<seq<Watched>>, n: nat)
    ensures Longer(ws, ws, n)
  {
  }

  lemma FlippedLonger(ws: seq<seq<Watched>>, ws': seq<seq<Watched>>)
    requires Flipped(ws, ws')
    ensures Longer(ws, ws', 0)
  {
  }

  lemma {:induction false} WithoutFirstShort(es: seq<Watched>, e: Watched)
    ensures |WithoutFirst(es, e)| <= |es|
  {
    if es != [] && es[0] != e {
      WithoutFirstShort(es[1..], e);
    }
  }

  lemma TriShort(ws: seq<seq<Watched>>, l: Lit, o1: Lit, o2: Lit)
    ensures Longer(ws, WithoutTri(ws, l, o1, o2), 0)
  {
    if ToInt(Neg(l)) < |ws| {
      WithoutFirstShort(ws[ToInt(Neg(l))], Tri(o1, o2));
    }
  }

  lemma DetachedLonger(ws: seq<seq<Watched>>, c: Clause)
    ensures Longer(ws, Detached(ws, c), 0)
  {
    LongerSame(ws, 0);
    if |c| == 3 {
      hide Longer, WithoutTri;
      var ws1 := WithoutTri(ws, c[0], c[1], c[2]);
      var ws2 := WithoutTri(ws1, c[1], c[0], c[2]);
      TriShort(ws, c[0], c[1], c[2]);
      TriShort(ws1, c[1], c[0], c[2]);
      TriShort(ws2, c[2], c[0], c[1]);
      LongerTrans(ws, ws1, ws2, 0, 0);
      LongerTrans(ws, ws2, WithoutTri(ws2, c[2], c[0], c[1]), 0, 0);
    }
  }

  lemma EntryLonger(ws: seq<seq<Watched>>, x: Lit, e: Watched, l: Lit)
    ensures |At(WithEntry(ws, x, e), l)| <= |At(ws, l)| + if l == x then 1 else 0
  {
    ToIntInjective(l, x);
  }

  /** A clause that is added makes no list longer by more than one. */
  lemma TwoLonger(ws: seq<seq<Watched>>, x: Lit, e: Watched, y: Lit, e': Watched)
    requires x != y
    ensures Longer(ws, WithEntry(WithEntry(ws, x, e), y, e'), 1)
  {
    hide WithEntry, At;
    forall l: Lit
      ensures |At(WithEntry(WithEntry(ws, x, e), y, e'), l)| <= |At(ws, l)| + 1
    {
      EntryLonger(ws, x, e, l);
      EntryLonger(WithEntry(ws, x, e), y, e', l);
    }
  }

  lemma LongLonger(ws: seq<seq<Watched>>, kept: Clause)
    requires NoDup(kept) && |kept| >= 3
    ensures Longer(ws, LongWatches(ws, kept), 1)
  {
    LongerSame(ws, 1);
    if |kept| == 3 {
      hide WithEntry, At;
      var x, y, z := kept[0], kept[1], kept[2];
      var ws1 := WithEntry(ws, x, Tri(y, z));
      var ws2 := WithEntry(ws1, y, Tri(x, z));
      forall l: Lit
        ensures |At(LongWatches(ws, kept), l)| <= |At(ws, l)| + 1
      {
        EntryLonger(ws, x, Tri(y, z), l);
        EntryLonger(ws1, y, Tri(x, z), l);
        EntryLonger(ws2, z, Tri(x, y), l);
      }
    }
  }

  /** What the watch lists of the literals of `c` count, and what the cached implications do. */
  function Toll(ws: seq<seq<Watched>>, c: Clause): nat {
    if c == [] then 0 else Toll(ws, c[..|c| - 1]) + 2 * |At(ws, c[|c| - 1])|
  }

  /** What the watch lists can count when each may have `n` entries more. */
  function TollLater(ws: seq<seq<Watched>>, c: Clause, n: nat): nat {
    if c == [] then 0 else TollLater(ws, c[..|c| - 1], n) + 2 * (|At(ws, c[|c| - 1])| + n)
  }

  function Caches(cache: seq<seq<Lit>>, c: Clause): nat {
    if c == [] then 0 else Caches(cache, c[..|c| - 1]) + |CacheAt(cache, c[|c| - 1])|
  }

  /** The count of one visit: the literals and watch lists, and at most all cached implications. */
  ghost predicate Priced(ws: seq<seq<Watched>>, cache: seq<seq<Lit>>, c: Clause, n: nat, t: nat, t': nat)
    requires n <= |c|
  {
    t + 2 * |c| + Toll(ws, c[..n]) <= t' <= t + 2 * |c| + Toll(ws, c[..n]) + Caches(cache, c[..n])
  }

  lemma PricedNothing(ws: seq<seq<Watched>>, cache: seq<seq<Lit>>, c: Clause, t: nat)
    ensures Priced(ws, cache, c, 0, t, t + 2 * |c|)
  {
  }

  lemma PricedStep(
      ws: seq<seq<Watched>>, cache: seq<seq<Lit>>, c: Clause, n: nat, t: nat, t1: nat, t2: nat, seen: bool)
    requires n < |c| && Priced(ws, cache, c, n, t, t1)
    requires t2 == t1 + 2 * |At(ws, c[n])| + if seen then |CacheAt(cache, c[n])| else 0
    ensures Priced(ws, cache, c, n + 1, t, t2)
  {
    assert c[..n + 1][..n] == c[..n];
  }

  /** The same told from the watch lists at the start of the pass, `n` visits earlier. */
  ghost predicate PricedLater(ws0: seq<seq<Watched>>, cache: seq<seq<Lit>>, c: Clause, n: nat, t: nat, t': nat) {
    t + 2 * |c| <= t' <= t + 2 * |c| + TollLater(ws0, c, n) + Caches(cache, c)
  }

  lemma {:induction false} TollGrown(ws0: seq<seq<Watched>>, ws: seq<seq<Watched>>, c: Clause, n: nat)
    requires Longer(ws0, ws, n)
    ensures Toll(ws, c) <= TollLater(ws0, c, n)
  {
    if c != [] {
      TollGrown(ws0, ws, c[..|c| - 1], n);
      assert |At(ws, c[|c| - 1])| <= |At(ws0, c[|c| - 1])| + n;
    }
  }

  lemma PricedGrown(
      ws0: seq<seq<Watched>>, ws: seq<seq<Watched>>, cache: seq<seq<Lit>>, c: Clause, n: nat, t: nat, t': nat)
    requires Longer(ws0, ws, n) && Priced(ws, cache, c, |c|, t, t')
    ensures PricedLater(ws0, cache, c, n, t, t')
  {
    TollGrown(ws0, ws, c, n);
    assert c[..|c|] == c;
  }

  /**
   The times at which the clauses were visited and the pass ended: each visit takes its price, and
   the last one is the first after a visit that began beyond the limit, at the latest.
   */
  ghost predicate Timed(
    ws0: seq<seq<Watched>>, cache: seq<seq<Lit>>, list0: seq<Cl>, times: seq<nat>, limit: nat) {
    && 1 <= |times| <= |list0| + 1 && times[0] == 0
    && (forall t :: 0 <= t < |times| - 1 ==>
      PricedLater(ws0, cache, list0[t].lits, t, times[t], times[t + 1]))
    && (forall t :: 0 <= t < |times| - 2 ==> times[t] <= limit)
  }

  lemma TimedSnoc(
      ws0: seq<seq<Watched>>, cache: seq<seq<Lit>>, list0: seq<Cl>, times: seq<nat>, limit: nat, t: nat)
    requires Timed(ws0, cache, list0, times, limit) && |times| <= |list0|
    requires |times| >= 2 ==> times[|times| - 2] <= limit
    requires var n := |times| - 1; PricedLater(ws0, cache, list0[n].lits, n, times[n], t)
    ensures Timed(ws0, cache, list0, times + [t], limit)
  {
    hide PricedLater;
    var times' := times + [t];
    forall k | 0 <= k < |times'| - 1
      ensures PricedLater(ws0, cache, list0[k].lits, k, times'[k], times'[k + 1])
    {
      assert k < |times| - 1 ==> times'[k] == times[k] && times'[k + 1] == times[k + 1];
    }
  }

  lemma TimedNone(ws0: seq<seq<Watched>>, cache: seq<seq<Lit>>, list0: seq<Cl>, limit: nat)
    ensures Timed(ws0, cache, list0, [0], limit)
  {
  }

  /** After the visits the rest of the list is passed on as it is. */
  ghost predicate Visited(list0: seq<Cl>, list: seq<Cl>, times: seq<nat>, kept: nat, j: nat, i: nat) {
    && 1 <= |times| <= i + 1 && kept <= j <= i <= |list| == |list0| && list[i..] == list0[i..]
    && j - kept == i - (|times| - 1) && list[kept..j] == list0[|times| - 1..i]
  }

  /** Visits go on after one that began within the limit, and end after one that did not or a contradiction. */
  ghost predicate Going(ok: bool, stopping: bool, times: seq<nat>, limit: nat)
    requires |times| >= 1
  {
    && (!stopping && |times| >= 2 ==> times[|times| - 2] <= limit)
    && (stopping ==> !ok || (|times| >= 2 && times[|times| - 2] > limit))
  }

  /** Everything about the visits so far, between two rounds of the loop. */
  ghost predicate Underway(
    ws0: seq<seq<Watched>>, ws: seq<seq<Watched>>, cache: seq<seq<Lit>>, list0: seq<Cl>, list: seq<Cl>,
    times: seq<nat>, kept: nat, j: nat, i: nat, time: nat, limit: nat, ok: bool, stopping: bool)
  {
    && Visited(list0, list, times, kept, j, i) && (!stopping ==> |times| - 1 == i && kept == j)
    && BinsStay(ws0, ws) && Longer(ws0, ws, |times| - 1)
    && Timed(ws0, cache, list0, times, limit) && times[|times| - 1] == time
    && Going(ok, stopping, times, limit) && AllCleaned(ws0, cache, list[..kept])
  }

  lemma StartPass(ws: seq<seq<Watched>>, cache: seq<seq<Lit>>, list: seq<Cl>, limit: nat)
    ensures Underway(ws, ws, cache, list, list, [0], 0, 0, 0, 0, limit, true, false)
  {
    BinsStayRefl(ws);
    LongerSame(ws, 0);
    TimedNone(ws, cache, list, limit);
    assert list[..0] == [];
  }

  lemma PassOn(
      ws0: seq<seq<Watched>>, ws: seq<seq<Watched>>, cache: seq<seq<Lit>>, list0: seq<Cl>, list: seq<Cl>,
      times: seq<nat>, kept: nat, j: nat, i: nat, time: nat, limit: nat, ok: bool)
    requires i < |list| && j < |list|
    requires Underway(ws0, ws, cache, list0, list, times, kept, j, i, time, limit, ok, true)
    ensures Underway(ws0, ws, cache, list0, list[j := list[i]], times, kept, j + 1, i + 1, time, limit, ok, true)
  {
    hide BinsStay, Longer, Timed, Going, AllCleaned;
    var list' := list[j := list[i]];
    assert list[i] == list[i..][0] == list0[i..][0] == list0[i];
    assert list'[i + 1..] == list[i..][1..] == list0[i..][1..] == list0[i + 1..];
    assert list'[kept..j + 1] == list[kept..j] + [list[i]];
    assert list0[|times| - 1..i + 1] == list0[|times| - 1..i] + [list0[i]];
    assert list'[..kept] == list[..kept];
  }

  lemma VisitedOne(list0: seq<Cl>, list: seq<Cl>, list': seq<Cl>, times: seq<nat>, j: nat, j': nat, i: nat, t: nat)
    requires Visited(list0, list, times, j, j, i) && |times| - 1 == i < |list| == |list'|
    requires j <= j' <= i + 1 && list'[i + 1..] == list[i + 1..]
    ensures |list0| == |list| && list[i] == list0[i] && Visited(list0, list', times + [t], j', j', i + 1)
  {
    assert list[i] == list[i..][0] == list0[i..][0] == list0[i];
    assert list'[i + 1..] == list[i..][1..] == list0[i..][1..] == list0[i + 1..];
  }

  /** One visit, which began at `time` and ended at `time'`. */
  lemma Visit(
      ws0: seq<seq<Watched>>, ws: seq<seq<Watched>>, ws': seq<seq<Watched>>, cache: seq<seq<Lit>>, list0: seq<Cl>,
      list: seq<Cl>, list': seq<Cl>, times: seq<nat>, kept: nat, j: nat, j': nat, i: nat, time: nat, time': nat,
      limit: nat, ok: bool, stopping: bool)
    requires Underway(ws0, ws, cache, list0, list, times, kept, j, i, time, limit, true, false)
    requires i < |list| == |list'| && j <= j' <= i + 1 && list'[i + 1..] == list[i + 1..]
    requires list'[..j] == list[..j] && AllCleaned(ws, cache, list'[j..j']) && BinsStay(ws, ws')
    requires Priced(ws, cache, list[i].lits, |list[i].lits|, time, time') && Longer(ws, ws', 1)
    requires stopping <==> time > limit || !ok
    ensures Underway(ws0, ws', cache, list0, list', times + [time'], j', j', i + 1, time', limit, ok, stopping)
  {
    hide BinsStay, Longer, Timed, AllCleaned, Priced, PricedLater, Visited;
    VisitedOne(list0, list, list', times, j, j', i, time');
    BinsStayTrans(ws0, ws, ws');
    CleanedStep(ws0, ws, cache, list, list', j, j');
    PricedGrown(ws0, ws, cache, list[i].lits, i, time, time');
    LongerTrans(ws0, ws, ws', i, 1);
    TimedSnoc(ws0, cache, list0, times, limit, time');
  }

  /** The end of the pass. */
  lemma EndPass(
      ws0: seq<seq<Watched>>, ws: seq<seq<Watched>>, cache: seq<seq<Lit>>, list0: seq<Cl>, list: seq<Cl>,
      times: seq<nat>, kept: nat, j: nat, time: nat, limit: nat, ok: bool, stopping: bool)
    requires j <= |list|
    requires Underway(ws0, ws, cache, list0, list, times, kept, j, |list|, time, limit, ok, stopping)
    ensures Timed(ws0, cache, list0, times, limit) && |times| >= 1 && times[|times| - 1] == time
    ensures var n := |times| - 1; n == |list0| || !ok || (n > 0 && times[n - 1] > limit)
    ensures |times| - 1 <= |list0| && kept <= j && list[..j][kept..] == list0[|times| - 1..]
    ensures AllCleaned(ws0, cache, list[..j][..kept])
    ensures ok && time <= limit ==> AllCleaned(ws0, cache, list[..j])
  {
    hide PricedLater, AllCleaned, BinsStay, Longer;
    assert list[..j][kept..] == list[kept..j] && list0[|times| - 1..] == list0[|times| - 1..|list0|];
    assert list[..j][..kept] == list[..kept];
    if stopping && ok {
      var n := |times| - 1;
      LaterVisits(ws0, cache, list0, times, limit, n - 1);
    }
    assert ok && time <= limit ==> kept == j && list[..j] == list[..kept];
  }

  lemma LaterVisits(
      ws0: seq<seq<Watched>>, cache: seq<seq<Lit>>, list0: seq<Cl>, times: seq<nat>, limit: nat, k: nat)
    requires Timed(ws0, cache, list0, times, limit) && k < |times| - 1
    ensures times[k] <= times[k + 1]
  {
    assert PricedLater(ws0, cache, list0[k].lits, k, times[k], times[k + 1]);
  }

  /** What the first `n` visits of a pass can take at most. */
  function MostTime(ws0: seq<seq<Watched>>, cache: seq<seq<Lit>>, list0: seq<Cl>, n: nat): nat
    requires n <= |list0|
  {
    if n == 0 then 0
    else
      var c := list0[n - 1].lits;
      MostTime(ws0, cache, list0, n - 1) + 2 * |c| + TollLater(ws0, c, n - 1) + Caches(cache, c)
  }

  /** A limit that the clauses, watch lists and cache at the start keep below is never exceeded. */
  lemma {:induction false} TimeEnough(
      ws0: seq<seq<Watched>>, cache: seq<seq<Lit>>, list0: seq<Cl>, times: seq<nat>, limit: nat, n: nat)
    requires Timed(ws0, cache, list0, times, limit) && n < |times|
    ensures times[n] <= MostTime(ws0, cache, list0, n)
  {
    if n > 0 {
      TimeEnough(ws0, cache, list0, times, limit, n - 1);
      assert PricedLater(ws0, cache, list0[n - 1].lits, n - 1, times[n - 1], times[n - 1 + 1]);
    }
  }

  lemma {:induction false} MostTimeGrows(
      ws0: seq<seq<Watched>>, cache: seq<seq<Lit>>, list0: seq<Cl>, n: nat, k: nat)
    requires n <= k <= |list0|
    ensures MostTime(ws0, cache, list0, n) <= MostTime(ws0, cache, list0, k)
  {
    if n < k {
      MostTimeGrows(ws0, cache, list0, n, k - 1);
    }
  }

  /** A pass is never cut short if its limit is not below what all visits can take at most. */
  lemma NeverCutShort(
      ws0: seq<seq<Watched>>, cache: seq<seq<Lit>>, list0: seq<Cl>, times: seq<nat>, limit: nat)
    requires Timed(ws0, cache, list0, times, limit) && MostTime(ws0, cache, list0, |list0|) <= limit
    ensures forall n :: 0 <= n < |times| ==> times[n] <= limit
  {
    forall n | 0 <= n < |times|
      ensures times[n] <= limit
    {
      TimeEnough(ws0, cache, list0, times, limit, n);
      MostTimeGrows(ws0, cache, list0, n, |list0|);
    }
  }

  /** The clauses put back after a visit are clean, also with respect to the start of the pass. */
  lemma CleanedStep(ws0: seq<seq<Watched>>, ws: seq<seq<Watched>>, cache: seq<seq<Lit>>, list: seq<Cl>, list': seq<Cl>,
      j: nat, j': nat)
    requires BinsStay(ws0, ws) && j <= j' <= |list'| && j <= |list| && AllCleaned(ws0, cache, list[..j])
    requires list'[..j] == list[..j] && AllCleaned(ws, cache, list'[j..j'])
    ensures AllCleaned(ws0, cache, list'[..j'])
  {
    hide Cleaned, BinsStay;
    forall c | c in list'[..j']
      ensures Cleaned(ws0, cache, c.lits)
    {
      var k :| 0 <= k < j' && list'[k] == c;
      if k < j {
        assert list[..j][k] == c;
      } else {
        assert list'[j..j'][k - j] == c;
        CleanedEarlier(ws0, ws, cache, c.lits);
      }
    }
  }

  // ----- the three outcomes of a visit -----

  /** What a scan leaves: perhaps some binary clauses are no longer learnt. */
  ghost predicate Scanned(b: Base, b1: Base, cl: Cl, rest: seq<Cl>, cache: seq<seq<Lit>>) {
    && Sound(b, cache) && b.ok && b1 == b.(watches := b1.watches) && Flipped(b.watches, b1.watches)
    && Mirrored(b1.watches)
    && (forall c :: c in b.cls <==> c == cl || c in rest)
  }

  lemma DropDone(b: Base, b1: Base, cl: Cl, rest: seq<Cl>, ws': seq<seq<Watched>>, cache: seq<seq<Lit>>)
    requires Scanned(b, b1, cl, rest, cache) && Fewer(b1.watches, ws')
    requires !cl.learnt ==> BinSubsumes(b1.watches, cl.lits)
    ensures OneDone(b, Base(b.ok, b.units, rest, ws'), cl, rest, [], cache) && BinsStay(b.watches, ws')
  {
    hide Models, Implied, Proper, Mirrored, Fewer, Flipped, Settled, Grows, BinSubsumes, BinsStay;
    var b2 := Base(b.ok, b.units, rest, ws');
    FlippedKeeps(b, cache, b1.watches);
    FlippedBins(b.watches, b1.watches);
    FewerBins(b1.watches, ws');
    BinsStayTrans(b.watches, b1.watches, ws');
    FlippedGrows(b, b1);
    DropClause(b1, cache, cl, rest, ws');
    ShrinkGrows(b1, b2);
    GrowsTrans(b, b1, b2);
    if !cl.learnt {
      SubsumedSettles(b1, cl.lits);
      StaysSettled(b1, b2, cl.lits);
    }
    assert rest + [] == rest;
  }

  lemma ScanThenFewer(b: Base, b1: Base, ws': seq<seq<Watched>>, cache: seq<seq<Lit>>)
    requires Sound(b, cache) && b1 == b.(watches := b1.watches) && Flipped(b.watches, b1.watches)
    requires Mirrored(b1.watches)
    requires Fewer(b1.watches, ws')
    ensures Proper(ws', cache) && Mirrored(ws')
  {
    hide Models, Implied, Proper, Mirrored, Fewer, Flipped;
    FlippedKeeps(b, cache, b1.watches);
    FewerSound(b1, b1.(watches := ws'), cache);
  }

  lemma PartInRange(c: Clause, part: Clause, n: nat)
    requires InRange(c, n) && forall l :: l in part ==> l in c
    ensures InRange(part, n)
  {
  }

  lemma ShortenDone(
      b: Base, b1: Base, cl: Cl, lits: Clause, rest: seq<Cl>, ws: seq<seq<Watched>>, b': Base, ret: seq<Cl>,
      cache: seq<seq<Lit>>)
    requires Scanned(b, b1, cl, rest, cache) && Fewer(b1.watches, ws) && (forall l :: l in lits ==> l in cl.lits)
    requires (forall m :: Models(b, m) ==> SatClause(m, lits)) && |ret| <= 1 && b'.cls == rest + ret
    requires Adds(Base(b.ok, b.units, rest, ws), b', lits, cl.learnt, ret) && Grows(Base(b.ok, b.units, rest, ws), b')
    requires Proper(b'.watches, cache) && Mirrored(b'.watches) && BinsStay(ws, b'.watches)
    requires b'.ok && ret == [] && !cl.learnt ==> Settled(b', lits)
    ensures OneDone(b, b', cl, rest, ret, cache) && BinsStay(b.watches, b'.watches)
    ensures forall c :: c in ret ==> forall l :: l in c.lits ==> l in lits
  {
    hide Models, Implied, Proper, Mirrored, Fewer, Flipped, Settled, Grows, BinSubsumes, BinsStay, Adds, SatClause;
    var b2 := Base(b.ok, b.units, rest, ws);
    FlippedKeeps(b, cache, b1.watches);
    FlippedBins(b.watches, b1.watches);
    FewerBins(b1.watches, ws);
    BinsStayTrans(b.watches, b1.watches, ws);
    BinsStayTrans(b.watches, ws, b'.watches);
    FlippedGrows(b, b1);
    ShrinkGrows(b1, b2);
    GrowsTrans(b, b1, b2);
    GrowsTrans(b, b2, b');
    ReplaceClause(b1, cache, cl, lits, rest, ws, b', ret);
    AddedLits(b2, b', lits, cl.learnt, ret);
    if b'.ok && !cl.learnt && ret == [] {
      PartSettles(b', lits, cl.lits);
    }
  }

  lemma KeepDone(b: Base, b1: Base, cl: Cl, rest: seq<Cl>, cache: seq<seq<Lit>>)
    requires Scanned(b, b1, cl, rest, cache)
    ensures OneDone(b, b1.(cls := rest + [cl]), cl, rest, [cl], cache) && BinsStay(b.watches, b1.watches)
  {
    hide Models, Implied, Proper, Mirrored, Flipped, Grows, BinsStay;
    var b' := b1.(cls := rest + [cl]);
    FlippedKeeps(b, cache, b1.watches);
    FlippedBins(b.watches, b1.watches);
    SameClauses(b1, b', cache);
    FlippedGrows(b, b');
  }

  // ----- the list -----

  /** The clauses in the list while it is compacted: those kept, and those not visited. */
  function Current(list: seq<Cl>, j: nat, i: nat): seq<Cl>
    requires j <= i <= |list|
  {
    list[..j] + list[i..]
  }

  /** The clauses of the solver but for clause `i` of the list. */
  function RestOf(list: seq<Cl>, j: nat, i: nat, others: seq<Cl>): seq<Cl>
    requires j <= i < |list|
  {
    list[..j] + list[i + 1..] + others
  }

  ghost predicate PartOf(part: Cl, c: Cl) {
    part.learnt == c.learnt && forall l :: l in part.lits ==> l in c.lits
  }

  ghost predicate HasPart(list: seq<Cl>, c: Cl) {
    exists part :: part in list && PartOf(part, c)
  }

  ghost predicate HasWhole(list: seq<Cl>, part: Cl) {
    exists c :: c in list && PartOf(part, c)
  }

  /** The state of the compaction. */
  ghost predicate Progress(b0: Base, list0: seq<Cl>, b: Base, list: seq<Cl>, others: seq<Cl>, j: nat, i: nat,
      cache: seq<seq<Lit>>) {
    && j <= i <= |list| == |list0| && list[i..] == list0[i..] && b.cls == Current(list, j, i) + others
    && Sound(b, cache) && (forall m :: Models(b, m) <==> Models(b0, m))
    && (forall c :: c in list0[..i] && !c.learnt && b.ok ==> HasPart(list[..j], c) || Settled(b, c.lits))
    && (forall c :: c in list[..j] ==> HasWhole(list0, c))
  }

  /** What becomes of one clause: `ret` takes its place. */
  ghost predicate OneDone(b: Base, b': Base, cl: Cl, rest: seq<Cl>, ret: seq<Cl>, cache: seq<seq<Lit>>) {
    && b'.cls == rest + ret && Sound(b', cache) && (forall m :: Models(b', m) <==> Models(b, m)) && Grows(b, b')
    && |ret| <= 1 && (forall c :: c in ret ==> PartOf(c, cl)) && (b'.ok ==> b.ok)
    && (b'.ok && !cl.learnt ==> ret != [] || Settled(b', cl.lits))
  }

  function Put(list: seq<Cl>, j: nat, ret: seq<Cl>): (r: seq<Cl>)
    requires j < |list|
    ensures |r| == |list|
  {
    if |ret| == 1 then list[j := ret[0]] else list
  }

  lemma PutAt(list: seq<Cl>, j: nat, ret: seq<Cl>)
    requires j < |list| && |ret| <= 1
    ensures Put(list, j, ret)[..j] == list[..j] && Put(list, j, ret)[j..j + |ret|] == ret
  {
  }

  lemma PutOne(list: seq<Cl>, j: nat, ret: seq<Cl>)
    requires j < |list|
    ensures Put(list, j, ret) == if |ret| == 1 then list[j := ret[0]] else list
  {
  }

  lemma PutParts(list: seq<Cl>, j: nat, i: nat, ret: seq<Cl>)
    requires j <= i < |list| && |ret| <= 1
    ensures Put(list, j, ret)[..j + |ret|] == list[..j] + ret
    ensures Put(list, j, ret)[i + 1..] == list[i + 1..]
  {
  }

  lemma StepParts(list0: seq<Cl>, b: Base, b': Base, list: seq<Cl>, j: nat, i: nat, ret: seq<Cl>)
    requires j <= i < |list| == |list0| && list[i] == list0[i] && |ret| <= 1 && Grows(b, b') && (b'.ok ==> b.ok)
    requires forall c :: c in ret ==> PartOf(c, list[i])
    requires b'.ok && !list[i].learnt ==> ret != [] || Settled(b', list[i].lits)
    requires forall c :: c in list0[..i] && !c.learnt && b.ok ==> HasPart(list[..j], c) || Settled(b, c.lits)
    requires forall c :: c in list[..j] ==> HasWhole(list0, c)
    ensures forall c :: c in list0[..i + 1] && !c.learnt && b'.ok ==> HasPart(list[..j] + ret, c) || Settled(b', c.lits)
    ensures forall c :: c in list[..j] + ret ==> HasWhole(list0, c)
  {
    hide PartOf, Settled, Grows;
    assert list0[..i + 1] == list0[..i] + [list0[i]] && list0[i] in list0;
    forall c | c in list0[..i + 1] && !c.learnt && b'.ok
      ensures HasPart(list[..j] + ret, c) || Settled(b', c.lits)
    {
      if c in list0[..i] {
        if Settled(b, c.lits) {
          StaysSettled(b, b', c.lits);
        } else {
          var part :| part in list[..j] && PartOf(part, c);
          assert part in list[..j] + ret;
        }
      } else if ret != [] {
        assert ret[0] in ret && ret[0] in list[..j] + ret;
      }
    }
  }

  lemma ProgressStep(b0: Base, list0: seq<Cl>, b: Base, b': Base, list: seq<Cl>, others: seq<Cl>, j: nat, i: nat,
      ret: seq<Cl>, cache: seq<seq<Lit>>)
    requires Progress(b0, list0, b, list, others, j, i, cache) && i < |list|
    requires OneDone(b, b', list[i], RestOf(list, j, i, others), ret, cache)
    ensures j + |ret| <= i + 1
    ensures var list' := Put(list, j, ret);
      Progress(b0, list0, b'.(cls := Current(list', j + |ret|, i + 1) + others), list', others, j + |ret|, i + 1, cache)
  {
    var list' := Put(list, j, ret);
    var b'' := b'.(cls := Current(list', j + |ret|, i + 1) + others);
    PutParts(list, j, i, ret);
    assert list[i] == list[i..][0] && list0[i] == list0[i..][0];
    assert list[i + 1..] == list[i..][1..] && list0[i + 1..] == list0[i..][1..];
    hide Put, Models, Sound, Settled, HasPart, HasWhole, PartOf, Grows;
    StepParts(list0, b, b', list, j, i, ret);
    SameClauses(b', b'', cache);
    SettledSame(b', b'');
  }

  lemma NextClause(list0: seq<Cl>, list: seq<Cl>, others: seq<Cl>, j: nat, i: nat)
    requires j <= i < |list| == |list0| && list[i..] == list0[i..]
    ensures list[i] in list0
    ensures forall c :: c in Current(list, j, i) + others <==> c == list[i] || c in RestOf(list, j, i, others)
  {
    assert list[i] == list[i..][0] && list0[i] == list0[i..][0];
    assert list[i..] == [list[i]] + list[i + 1..];
  }

  lemma Start(list: seq<Cl>, others: seq<Cl>, b: Base, cache: seq<seq<Lit>>)
    requires b.cls == list + others && Sound(b, cache)
    ensures Current(list, 0, 0) + others == list + others && Progress(b, list, b, list, others, 0, 0, cache)
  {
    assert list[..0] + list[0..] == list;
  }

  lemma AtNext(list0: seq<Cl>, list: seq<Cl>, others: seq<Cl>, j: nat, i: nat, b: Base, b0: Base, cache: seq<seq<Lit>>)
    requires i < |list| && Progress(b0, list0, b, list, others, j, i, cache)
    ensures Sound(b, cache) && list[i] in list0
    ensures forall c :: c in Current(list, j, i) + others <==> c == list[i] || c in RestOf(list, j, i, others)
  {
    NextClause(list0, list, others, j, i);
  }

  /** A clause that is not visited any more is kept. */
  lemma KeepNext(
      list0: seq<Cl>, list: seq<Cl>, others: seq<Cl>, j: nat, i: nat, b: Base, b0: Base, cache: seq<seq<Lit>>)
    requires i < |list| && Progress(b0, list0, b, list, others, j, i, cache)
    ensures var list' := list[j := list[i]];
      Progress(b0, list0, b.(cls := Current(list', j + 1, i + 1) + others), list', others, j + 1, i + 1, cache)
  {
    var rest := RestOf(list, j, i, others);
    NextClause(list0, list, others, j, i);
    hide Models, Settled, HasPart, HasWhole, OneDone, Grows, Sound;
    Untouched(b, list[i], rest, cache);
    hide Progress;
    ProgressStep(b0, list0, b, b.(cls := rest + [list[i]]), list, others, j, i, [list[i]], cache);
  }

  lemma Finish(list0: seq<Cl>, list: seq<Cl>, others: seq<Cl>, j: nat, b: Base, b0: Base, cache: seq<seq<Lit>>)
    requires Progress(b0, list0, b, list, others, j, |list|, cache)
    ensures b.cls == list[..j] + others && Sound(b, cache) && forall m :: Models(b, m) <==> Models(b0, m)
    ensures forall c :: c in list0 && !c.learnt && b.ok ==> HasPart(list[..j], c) || Settled(b.(cls := []), c.lits)
    ensures forall c :: c in list[..j] ==> HasWhole(list0, c)
  {
    hide Models, Settled, HasPart, HasWhole, Sound;
    assert Current(list, j, |list|) == list[..j] && list0[..|list|] == list0;
    SettledSame(b, b.(cls := []));
  }

  lemma SettledSame(b: Base, b': Base)
    requires b' == b.(cls := b'.cls)
    ensures forall c :: Settled(b, c) <==> Settled(b', c)
  {
  }

  lemma Untouched(b: Base, cl: Cl, rest: seq<Cl>, cache: seq<seq<Lit>>)
    requires Sound(b, cache) && forall c :: c in b.cls <==> c == cl || c in rest
    ensures OneDone(b, b.(cls := rest + [cl]), cl, rest, [cl], cache)
  {
    hide Models;
    SameClauses(b, b.(cls := rest + [cl]), cache);
  }

  // ----- the scan -----

  /** The solver as far as the vivifier sees it. */
  class Vivifier {
    var ok: bool
    var units: seq<Lit>
    var watches: seq<seq<Watched>>
    var others: seq<Cl>
    var list: seq<Cl>
    const cache: seq<seq<Lit>>
    var countTime: nat

    /** `makeNonLearntBin`, with `findWatchedOfBin` for both halves. */
    method MakeNonLearntBin(x: Lit, y: Lit)
      requires Mirrored(watches) && x != y && Bin(y, true) in At(watches, x)
      requires ToInt(Neg(x)) < |watches| && ToInt(Neg(y)) < |watches|
      modifies this`watches
      ensures Mirrored(watches) && Flipped(old(watches), watches)
      ensures exists k :: 0 <= k < |At(watches, x)| && At(watches, x)[k] == Bin(y, false)
    {
      ghost var ws := watches;
      var i := FindBin(x, y);
      OtherHalf(ws, x, i, y);
      watches := watches[ToInt(Neg(x)) := watches[ToInt(Neg(x))][i := Bin(y, false)]];
      var j := FindBin(y, x);
      ToIntInjective(x, y);
      FlipBoth(ws, x, i, y, j);
      watches := watches[ToInt(Neg(y)) := watches[ToInt(Neg(y))][j := Bin(x, false)]];
      assert At(watches, x)[i] == Bin(y, false);
    }

    /** The clause's literals are flagged in both arrays. */
    method FlagAll(c: Clause, seen0: seq<bool>, seenSubs0: seq<bool>) returns (seen: seq<bool>, seenSubs: seq<bool>)
      requires |seen0| == |seenSubs0| && InRange(c, |seen0|)
      requires forall l: Lit :: !Flag(seen0, l) && !Flag(seenSubs0, l)
      ensures |seen| == |seenSubs| == |seen0| && seen == MarkAll(seen0, c)
      ensures forall l: Lit :: (Flag(seen, l) <==> l in c) && (Flag(seenSubs, l) <==> l in c)
    {
      seen, seenSubs := seen0, seenSubs0;
      for i := 0 to |c|
        invariant |seen| == |seenSubs| == |seen0| && seen == MarkAll(seen0, c[..i])
        invariant forall l: Lit :: (Flag(seen, l) <==> l in c[..i]) && (Flag(seenSubs, l) <==> l in c[..i])
      {
        MarkStep(seen0, c, i);
        FlagSet(seen, c[i], true);
        FlagSet(seenSubs, c[i], true);
        assert c[i] in c && c[..i + 1] == c[..i] + [c[i]];
        seen, seenSubs := seen[ToInt(c[i]) := true], seenSubs[ToInt(c[i]) := true];
      }
      assert c[..|c|] == c;
    }

    /**
     One watch entry of literal `l` of clause `cl`: subsumption by a ternary clause (only
     of learnt clauses) or a binary one, and the literals it takes away.
     */
    method VisitWatch(l: Lit, k: nat, cl: Cl, seen0: seq<bool>, seenSubs: seq<bool>, ghost b: Base)
      returns (subsumed: bool, seen: seq<bool>)
      requires Flipped(b.watches, watches) && Mirrored(watches)
      requires Implied(b, cache) && Proper(b.watches, cache) && k < |At(watches, l)|
      requires l in cl.lits && InRange(cl.lits, |watches|) && forall x: Lit :: Flag(seenSubs, x) <==> x in cl.lits
      requires KeepsAll(b, cl.lits, seen0) && Within(cl.lits, seen0)
      modifies this`watches
      ensures |At(watches, l)| == |old(At(watches, l))|
      ensures Flipped(b.watches, watches) && Flipped(old(watches), watches) && Mirrored(watches)
      ensures |seen| == |seen0| && KeepsAll(b, cl.lits, seen) && Within(cl.lits, seen)
      ensures subsumed && !cl.learnt ==> BinSubsumes(watches, cl.lits)
      ensures k < |At(b.watches, l)| && (subsumed <==> HitBy(cl, At(b.watches, l)[k]))
      ensures Less(seen, seen0) && (Flag(seen, l) ==> SpentOn(seen, |cl.lits| > 3, At(b.watches, l)[k]))
      ensures seen == VisitFlags(seen0, l, |cl.lits| > 3, At(b.watches, l)[k])
    {
      FlippedEntries(b.watches, watches, l);
      EntryTrue(b, cache, watches, l, k);
      hide Implied, Mirrored, KeepsAll, Within, Flipped, Proper, BinSubsumes, Models, Halves, Less, Flag, EntryHolds,
        ProperEntry, VisitFlags;
      var e := watches[ToInt(Neg(l))][k];
      assert Unlearnt(At(b.watches, l)[k], e);
      subsumed := CheckSubsumed(l, e, cl, seenSubs, b);
      seen := Strengthen(l, e, |cl.lits| > 3, seen0, cl.lits, b);
      VisitUnlearnt(seen0, l, |cl.lits| > 3, At(b.watches, l)[k], e);
    }

    /** Is the watched clause `e` part of `cl`?  A binary one then becomes part of the problem if `cl` is. */
    method CheckSubsumed(l: Lit, e: Watched, cl: Cl, seenSubs: seq<bool>, ghost b: Base) returns (subsumed: bool)
      requires Flipped(b.watches, watches) && Mirrored(watches) && e in At(watches, l) && ProperEntry(l, e)
      requires l in cl.lits && InRange(cl.lits, |watches|) && forall x: Lit :: Flag(seenSubs, x) <==> x in cl.lits
      modifies this`watches
      ensures |At(watches, l)| == |old(At(watches, l))|
      ensures Flipped(b.watches, watches) && Flipped(old(watches), watches) && Mirrored(watches)
      ensures subsumed && !cl.learnt ==> BinSubsumes(watches, cl.lits)
      ensures subsumed <==> HitBy(cl, e)
    {
      hide Mirrored, Flipped, BinSubsumes, Flag, Halves;
      subsumed := false;
      FlippedRefl(watches);
      if e.Tri? && |cl.lits| > 3 {
        if cl.learnt && Flag(seenSubs, e.o1) && Flag(seenSubs, e.o2) {
          subsumed := true;
        }
      }
      if e.Bin? && Flag(seenSubs, e.other) {
        if !cl.learnt && e.learnt {
          ghost var ws := watches;
          MakeNonLearntBin(l, e.other);
          FlippedTrans(b.watches, ws, watches);
          FlippedEntries(ws, watches, l);
        }
        IsSubsumed(watches, cl, l, e.other);
        subsumed := true;
      }
    }

    /** The literals of the clause that the watched clause `e` takes away, while `l` itself is there. */
    method Strengthen(
        l: Lit, e: Watched, wide: bool, seen0: seq<bool>, ghost c: Clause, ghost b: Base) returns (seen: seq<bool>)
      requires KeepsAll(b, c, seen0) && Within(c, seen0) && ProperEntry(l, e)
      requires forall m :: Models(b, m) ==> EntryHolds(m, l, e)
      ensures |seen| == |seen0| && KeepsAll(b, c, seen) && Within(c, seen)
      ensures Less(seen, seen0) && (Flag(seen, l) ==> SpentOn(seen, wide, e))
      ensures seen == VisitFlags(seen0, l, wide, e)
    {
      hide KeepsAll, Within, Models, Less, Flag, AfterTri;
      StartLess(seen0);
      seen := seen0;
      if e.Tri? && wide {
        TriStep(b, c, seen, l, e.o1, e.o2);
        AfterTriSpent(seen, l, e.o1, e.o2);
        seen := VisitTri(seen, l, e.o1, e.o2);
      }
      if e.Bin? && Flag(seen, l) {
        assert forall m :: Models(b, m) ==> EntryHolds(m, l, Bin(e.other, e.learnt));
        DropByBin(b, c, seen, l, e.other);
        ClearedLess(seen, Neg(e.other));
        seen := SetFlag(seen, Neg(e.other), false);
      }
    }

    method VisitTri(seen0: seq<bool>, l: Lit, o1: Lit, o2: Lit) returns (seen: seq<bool>)
      ensures seen == AfterTri(seen0, l, o1, o2)
    {
      seen := seen0;
      if Flag(seen, l) {
        if Flag(seen, o2) {
          seen := SetFlag(seen, Neg(o1), false);
        }
        if Flag(seen, o1) {
          seen := SetFlag(seen, Neg(o2), false);
        }
      }
    }

    /** All watch entries of literal `l`, then its cached implications if it is still there. */
    method VisitLit(l: Lit, cl: Cl, seen0: seq<bool>, seenSubs: seq<bool>, ghost b: Base)
      returns (subsumed: bool, seen: seq<bool>)
      requires Flipped(b.watches, watches) && Mirrored(watches)
      requires Implied(b, cache) && Proper(b.watches, cache)
      requires l in cl.lits && InRange(cl.lits, |watches|) && |cache| == |watches|
      requires forall x: Lit :: Flag(seenSubs, x) <==> x in cl.lits
      requires KeepsAll(b, cl.lits, seen0) && Within(cl.lits, seen0)
      modifies this`watches, this`countTime
      ensures Flipped(b.watches, watches) && Flipped(old(watches), watches) && Mirrored(watches)
      ensures |seen| == |seen0| && KeepsAll(b, cl.lits, seen) && Within(cl.lits, seen)
      ensures subsumed && !cl.learnt ==> BinSubsumes(watches, cl.lits)
      ensures subsumed <==> HitAmong(At(b.watches, l), cl, |At(b.watches, l)|)
      ensures countTime ==
        old(countTime) + 2 * |At(b.watches, l)| + if Flag(seen, l) then |CacheAt(cache, l)| else 0
      ensures Less(seen, seen0) && SpentLit(b.watches, cache, seen, |cl.lits| > 3, l)
      ensures seen == LitFlags(b.watches, cache, |cl.lits| > 3, seen0, l)
    {
      hide Implied, Mirrored, KeepsAll, Within, Flipped, Proper, BinSubsumes, Models, Less, SpentAmong, HitAmong,
        Unflagged;
      hide SpentOn, HitBy, VisitFlags;
      ghost var ws0, wide, es := watches, |cl.lits| > 3, At(b.watches, l);
      FlippedRefl(watches);
      FlippedEntries(b.watches, watches, l);
      seen, subsumed := seen0, false;
      StartLess(seen);
      NoneYet(seen, wide, es, cl, CacheAt(cache, l));
      var n := |watches[ToInt(Neg(l))]|;
      countTime := countTime + 2 * n;
      for k := 0 to n
        invariant countTime == old(countTime) + 2 * n
        invariant |At(watches, l)| == n && |watches| == |ws0|
        invariant Flipped(b.watches, watches) && Flipped(ws0, watches) && Mirrored(watches)
        invariant |seen| == |seen0| && KeepsAll(b, cl.lits, seen) && Within(cl.lits, seen)
        invariant subsumed && !cl.learnt ==> BinSubsumes(watches, cl.lits)
        invariant Less(seen, seen0) && (subsumed <==> HitAmong(es, cl, k))
        invariant (Flag(seen, l) ==> SpentAmong(seen, wide, es, k)) && seen == EntriesFlags(seen0, l, wide, es, k)
      {
        ghost var ws := watches;
        var hit, seen' := VisitWatch(l, k, cl, seen, seenSubs, b);
        OneMore(seen0, seen, seen', wide, es, cl, k, l);
        FlippedTrans(ws0, ws, watches);
        FlippedSize(ws, watches);
        if subsumed && !cl.learnt {
          StillSubsumes(ws, watches, cl.lits);
        }
        seen, subsumed := seen', subsumed || hit;
      }
      if Flag(seen, l) {
        countTime := countTime + |cache[ToInt(l)]|;
        NoneYet(seen, wide, es, cl, CacheAt(cache, l));
        ghost var seen1 := seen;
        for k := 0 to |cache[ToInt(l)]|
          modifies {}
          invariant |seen| == |seen0| && KeepsAll(b, cl.lits, seen) && Within(cl.lits, seen) && Flag(seen, l)
          invariant Less(seen, seen0) && SpentAmong(seen, wide, es, n) && Unflagged(seen, CacheAt(cache, l), k)
          invariant seen == CacheFlags(seen1, CacheAt(cache, l), k)
        {
          CacheStep(b, cache, cl.lits, seen, l, cache[ToInt(l)][k]);
          OneMoreCached(seen0, seen, wide, es, CacheAt(cache, l), k);
          seen := SetFlag(seen, Neg(cache[ToInt(l)][k]), false);
        }
      }
    }

    /** The scan of a clause: is it subsumed, and which of its literals stay? */
    method ScanClause(cl: Cl, seen0: seq<bool>, seenSubs0: seq<bool>, ghost b: Base)
      returns (subsumed: bool, seen: seq<bool>, seenSubs: seq<bool>)
      requires b.watches == watches && Mirrored(watches) && Implied(b, cache) && Proper(b.watches, cache)
      requires cl in b.cls && |cache| == |watches| == |seen0| == |seenSubs0| && InRange(cl.lits, |watches|)
      requires forall l: Lit :: !Flag(seen0, l) && !Flag(seenSubs0, l)
      modifies this`watches, this`countTime
      ensures Flipped(b.watches, watches) && Mirrored(watches)
      ensures |seen| == |seenSubs| == |seen0| && KeepsAll(b, cl.lits, seen) && Within(cl.lits, seen)
      ensures forall l: Lit :: Flag(seenSubs, l) <==> l in cl.lits
      ensures subsumed && !cl.learnt ==> BinSubsumes(watches, cl.lits)
      ensures Priced(b.watches, cache, cl.lits, |cl.lits|, old(countTime), countTime)
      ensures subsumed <==> Hit(b.watches, cl, |cl.lits|)
      ensures Spent(b.watches, cache, seen, cl.lits, |cl.lits|)
      ensures seen == ScanFlags(b.watches, cache, cl.lits, MarkAll(seen0, cl.lits), |cl.lits|)
    {
      hide Implied, Mirrored, KeepsAll, Within, Flipped, Proper, BinSubsumes, Models, Flag, Less, HitAmong, SpentLit,
        Hit, Spent, Priced, LitFlags;
      PricedNothing(b.watches, cache, cl.lits, countTime);
      countTime := countTime + 2 * |cl.lits|;
      subsumed := false;
      seen, seenSubs := FlagAll(cl.lits, seen0, seenSubs0);
      StartScan(b, cl, seen, cache);
      FlippedRefl(watches);
      NoLitYet(watches, cache, seen, cl);
      for i := 0 to |cl.lits|
        invariant Priced(b.watches, cache, cl.lits, i, old(countTime), countTime)
        invariant |watches| == |seen0| && Flipped(b.watches, watches) && Mirrored(watches)
        invariant |seen| == |seen0| && KeepsAll(b, cl.lits, seen) && Within(cl.lits, seen)
        invariant subsumed && !cl.learnt ==> BinSubsumes(watches, cl.lits)
        invariant (subsumed <==> Hit(b.watches, cl, i)) && Spent(b.watches, cache, seen, cl.lits, i)
        invariant seen == ScanFlags(b.watches, cache, cl.lits, MarkAll(seen0, cl.lits), i)
      {
        ghost var ws, time := watches, countTime;
        var hit, seen' := VisitLit(cl.lits[i], cl, seen, seenSubs, b);
        FlippedSize(ws, watches);
        OneMoreLit(b.watches, cache, seen, seen', cl, i);
        PricedStep(b.watches, cache, cl.lits, i, old(countTime), time, countTime, Flag(seen', cl.lits[i]));
        if subsumed && !cl.learnt {
          StillSubsumes(ws, watches, cl.lits);
        }
        seen, subsumed := seen', subsumed || hit;
      }
    }

    /** The literals that stay; the flags are cleared again. */
    method TakeKept(c: Clause, seen0: seq<bool>, seenSubs0: seq<bool>)
      returns (lits: Clause, seen: seq<bool>, seenSubs: seq<bool>)
      requires |seenSubs0| == |seen0| && Within(c, seen0) && Within(c, seenSubs0)
      ensures |seen| == |seenSubs| == |seen0|
      ensures forall l: Lit :: !Flag(seen, l) && !Flag(seenSubs, l)
      ensures forall l: Lit :: l in lits <==> l in c && Flag(seen0, l)
      ensures |lits| <= |c| && (|lits| == |c| ==> lits == c) && lits == KeptOf(c, seen0)
    {
      hide KeptOf;
      KeptNone(seen0);
      lits, seen, seenSubs := [], seen0, seenSubs0;
      for i := 0 to |c|
        invariant |seen| == |seenSubs| == |seen0|
        invariant forall l: Lit :: Flag(seen, l) <==> Flag(seen0, l) && l !in c[..i]
        invariant forall l: Lit :: Flag(seenSubs, l) <==> Flag(seenSubs0, l) && l !in c[..i]
        invariant forall l: Lit :: l in lits <==> l in c[..i] && Flag(seen0, l)
        invariant |lits| <= i && (|lits| == i ==> lits == c[..i]) && lits == KeptOf(c[..i], seen0)
      {
        FlagSet(seen, c[i], false);
        FlagSet(seenSubs, c[i], false);
        KeptStep(c, seen0, i);
        assert c[..i + 1] == c[..i] + [c[i]];
        if Flag(seen, c[i]) {
          lits := lits + [c[i]];
        }
        seen, seenSubs := SetFlag(seen, c[i], false), SetFlag(seenSubs, c[i], false);
      }
      assert c[..|c|] == c;
    }

    /** `removeWTri`: the first such entry, if there is one. */
    method RemoveWTri(l: Lit, o1: Lit, o2: Lit)
      requires ToInt(Neg(l)) < |watches|
      modifies this`watches
      ensures Fewer(old(watches), watches) && watches == WithoutTri(old(watches), l, o1, o2)
    {
      var ws := watches[ToInt(Neg(l))];
      var k := 0;
      while k < |ws| && ws[k] != Tri(o1, o2)
        invariant 0 <= k <= |ws| && forall j :: 0 <= j < k ==> ws[j] != Tri(o1, o2)
      {
        k := k + 1;
      }
      WithoutFirstAt(ws, Tri(o1, o2), k);
      if k < |ws| {
        FewerOne(watches, ToInt(Neg(l)), k);
        watches := watches[ToInt(Neg(l)) := ws[..k] + ws[k + 1..]];
      }
    }

    /** `detachClause`: a clause of three literals lives in the watch lists. */
    method DetachClause(c: Clause)
      requires InRange(c, |watches|)
      modifies this`watches
      ensures Fewer(old(watches), watches) && watches == Detached(old(watches), c)
    {
      if |c| == 3 {
        RemoveWTri(c[0], c[1], c[2]);
        RemoveWTri(c[1], c[0], c[2]);
        RemoveWTri(c[2], c[0], c[1]);
      }
    }

    predicate IsTrue(l: Lit)
      reads this`units
    {
      l in units
    }

    predicate IsFalse(l: Lit)
      reads this`units
    {
      Neg(l) in units
    }

    /** The literals of `ps` that are not false, or the clause needs no adding. */
    method Simplify(ps: Clause) returns (done: bool, kept: Clause)
      ensures forall l :: l in kept ==> l in ps && Neg(l) !in kept
      ensures NoDup(kept)
      ensures forall l :: l in ps && !done ==> l in kept || IsFalse(l)
      ensures done ==> exists l :: l in ps && (IsTrue(l) || Neg(l) in ps)
      ensures Reduced(units, ps, []) == if done then None else Some(kept)
    {
      hide Reduced;
      done, kept := false, [];
      assert ps[0..] == ps;
      for i := 0 to |ps|
        invariant NoDup(kept) && Reduced(units, ps, []) == Reduced(units, ps[i..], kept)
        invariant forall l :: l in kept ==> l in ps[..i] && Neg(l) !in kept
        invariant forall l :: l in ps[..i] ==> l in kept || IsFalse(l)
      {
        assert ps[i] in ps && ps[..i + 1] == ps[..i] + [ps[i]];
        ReducedStep(units, ps, i, kept);
        if IsTrue(ps[i]) || Neg(ps[i]) in kept {
          assert Neg(ps[i]) in kept ==> Neg(ps[i]) in ps;
          return true, kept;
        }
        if !IsFalse(ps[i]) && ps[i] !in kept {
          NegNeg(ps[i]);
          kept := kept + [ps[i]];
        }
      }
      assert ps[..|ps|] == ps;
      ReducedStep(units, ps, |ps|, kept);
    }

    /**
     `addClauseInt`: an empty clause, a fact, a binary clause, or a longer one, which is
     returned.  Propagation of a fact is reduced to the conflict with the facts there are.
     */
    method AddClauseInt(ps: Clause, learnt: bool, ghost rest: seq<Cl>) returns (ret: seq<Cl>)
      requires ok && InRange(ps, |watches|) && Mirrored(watches) && Proper(watches, cache)
      modifies this`ok, this`units, this`watches
      ensures |watches| == |old(watches)| && Mirrored(watches) && Proper(watches, cache)
      ensures Adds(old(Db(rest)), Db(rest + ret), ps, learnt, ret)
      ensures |ret| <= 1 && Grows(old(Db(rest)), Db(rest + ret))
      ensures BinsStay(old(watches), watches) && Longer(old(watches), watches, 1)
      ensures AddedExactly(Reduced(old(units), ps, []), old(Db([])), Db([]), learnt, ret)
      ensures ok && ret == [] && !learnt ==> Settled(Db(rest + ret), ps)
    {
      BinsStayRefl(watches);
      LongerSame(watches, 1);
      hide BinsStay, Longer;
      ret := [];
      var done, kept := Simplify(ps);
      ghost var b := Db(rest);
      hide Adds, Mirrored, Proper, SatClause, At, BinSubsumes, AllHold;
      if done {
        AddDone(b, ps, learnt);
        return;
      }
      assert rest + [] == rest;
      KeptMeans(b, ps, kept);
      if |kept| == 0 {
        ok := false;
        AddEmpty(b, ps, kept, learnt);
      } else if |kept| == 1 {
        units := units + [kept[0]];
        AddFact(b, ps, kept, learnt);
      } else if |kept| == 2 {
        AddBinary(b, cache, ps, kept, learnt);
        TwoLonger(watches, kept[0], Bin(kept[1], learnt), kept[1], Bin(kept[0], learnt));
        BinariesStay(watches, kept[0], Bin(kept[1], learnt), kept[1], Bin(kept[0], learnt));
        watches := WithEntry(watches, kept[0], Bin(kept[1], learnt));
        watches := WithEntry(watches, kept[1], Bin(kept[0], learnt));
      } else {
        ret := [Cl(kept, learnt)];
        LongStays(watches, kept);
        LongLonger(watches, kept);
        if |kept| == 3 {
          watches := WithEntry(watches, kept[0], Tri(kept[1], kept[2]));
          watches := WithEntry(watches, kept[1], Tri(kept[0], kept[2]));
          watches := WithEntry(watches, kept[2], Tri(kept[0], kept[1]));
        }
        AddLong(b, cache, ps, kept, learnt);
      }
    }

    /** One clause: dropped, shortened or kept; `ret` is what takes its place. */
    method VivifyOne(cl: Cl, seen0: seq<bool>, seenSubs0: seq<bool>, ghost cls: seq<Cl>, ghost rest: seq<Cl>)
      returns (ret: seq<Cl>, seen: seq<bool>, seenSubs: seq<bool>)
      requires ok && Sound(Db(cls), cache) && InRange(cl.lits, |watches|)
      requires forall c :: c in cls <==> c == cl || c in rest
      requires |cache| == |watches| == |seen0| == |seenSubs0| && forall l: Lit :: !Flag(seen0, l) && !Flag(seenSubs0, l)
      modifies this`ok, this`units, this`watches, this`countTime
      ensures OneDone(old(Db(cls)), Db(rest + ret), cl, rest, ret, cache)
      ensures |watches| == |old(watches)| == |seen| == |seenSubs|
      ensures forall l: Lit :: !Flag(seen, l) && !Flag(seenSubs, l)
      ensures |ret| <= 1 && (Hit(old(watches), cl, |cl.lits|) ==> ret == [])
      ensures forall c :: c in ret ==> Exhausted(old(watches), cache, |cl.lits| > 3, c.lits)
      ensures BinsStay(old(watches), watches) && AllCleaned(old(watches), cache, ret)
      ensures Priced(old(watches), cache, cl.lits, |cl.lits|, old(countTime), countTime)
      ensures Longer(old(watches), watches, 1)
      ensures var flags := ScanFlags(old(watches), cache, cl.lits, MarkAll(seen0, cl.lits), |cl.lits|);
        VivifiedAs(old(Db([])), Db([]), cl, KeptOf(cl.lits, flags), ret)
    {
      hide Models, Fewer, Adds, KeepsAll, Within, Flipped, Settled, Grows, BinSubsumes, Flag, Hit, Spent, Exhausted,
        BinsStay, Implied, Proper, Mirrored, OneDone, InRange, AllCleaned, AddedExactly, Detached, Priced, Longer,
        KeptOf, ScanFlags, MarkAll, VivifiedAs;
      ghost var b := Db(cls);
      var subsumed;
      subsumed, seen, seenSubs := ScanClause(cl, seen0, seenSubs0, b);
      FlippedSize(b.watches, watches);
      FlippedLonger(b.watches, watches);
      ghost var b1 := Db(cls);
      DetachedLonger(b1.watches, cl.lits);
      LongerTrans(b.watches, b1.watches, Detached(b1.watches, cl.lits), 0, 0);
      ghost var flagged := seen;
      var lits;
      FlagsWithin(cl.lits, seen, seenSubs);
      lits, seen, seenSubs := TakeKept(cl.lits, seen, seenSubs);
      SpentExhausts(b.watches, cache, flagged, cl.lits, lits);
      KeptImplied(b, cl.lits, flagged, lits);
      hide Sound;
      if subsumed {
        DetachClause(cl.lits);
        ret := [];
        assert rest + ret == rest;
        DropDone(b, b1, cl, rest, watches, cache);
        LongerMore(b.watches, watches);
      } else if |lits| < |cl.lits| {
        DetachClause(cl.lits);
        ghost var ws := watches;
        ScanThenFewer(b, b1, ws, cache);
        PartInRange(cl.lits, lits, |watches|);
        ret := AddClauseInt(lits, cl.learnt, rest);
        ShortenDone(b, b1, cl, lits, rest, ws, Db(rest + ret), ret, cache);
        LongerTrans(b.watches, ws, watches, 0, 1);
        PartsExhausted(b.watches, cache, |cl.lits| > 3, lits, ret);
      } else {
        ret := [cl];
        KeepDone(b, b1, cl, rest, cache);
        LongerMore(b.watches, watches);
      }
      PartsCleaned(b.watches, cache, cl, ret);
      ScannedWith(b.(cls := []), b1.watches, Db([]), cl, lits, ret);
    }

    /**
     `vivifyClauses2` over the list, compacted in place with the two indices `i` and `j`.
     The problem keeps exactly its models; every clause of the problem that was in the
     list still has a part in it, or is settled by a binary clause of the problem, a fact
     or itself being a tautology.  The pass goes on until all clauses are visited, the problem
     turns out unsatisfiable, or a visit began beyond the limit; what was not visited stays as
     it is, and of the rest no clause contains or can be shortened by a binary clause that was
     there at the start.  `times` says when the visits began and the last one ended.
     */
    method VivifyClauses2(maxCountTime: nat) returns (r: bool, ghost times: seq<nat>, ghost kept: nat)
      requires ok && Sound(Db(list + others), cache) && |cache| == |watches|
      requires forall c :: c in list ==> InRange(c.lits, |watches|)
      modifies this`ok, this`units, this`watches, this`countTime, this`list
      ensures r == ok && Sound(Db(list + others), cache)
      ensures forall m :: Models(Db(list + others), m) <==> Models(old(Db(list + others)), m)
      ensures forall c :: c in old(list) && !c.learnt && ok ==> HasPart(list, c) || Settled(Db([]), c.lits)
      ensures forall c :: c in list ==> HasWhole(old(list), c)
      ensures |list| <= |old(list)|
      ensures Timed(old(watches), cache, old(list), times, maxCountTime) && times[|times| - 1] == countTime
      ensures var n := |times| - 1;
        n == |old(list)| || !ok || (n > 0 && times[n - 1] > maxCountTime)
      ensures kept <= |list| && list[kept..] == old(list)[|times| - 1..]
      ensures AllCleaned(old(watches), cache, list[..kept])
      ensures ok && countTime <= maxCountTime ==> AllCleaned(old(watches), cache, list)
    {
      hide Sound, Models, Settled, HasPart, HasWhole, OneDone, Grows, InRange, Progress, BinsStay, Cleaned, AllCleaned,
        Timed, Priced, Longer, Underway;
      ghost var list0, b0 := list, Db(list + others);
      var seen, seenSubs := seq(|watches|, _ => false), seq(|watches|, _ => false);
      countTime := 0;
      var needToFinish := false;
      var i, j := 0, 0;
      Start(list, others, b0, cache);
      times, kept := [0], 0;
      StartPass(watches, cache, list, maxCountTime);
      while i != |list|
        invariant 0 <= j <= i <= |list| == |list0|
        invariant Progress(b0, list0, Db(Current(list, j, i) + others), list, others, j, i, cache)
        invariant |watches| == |b0.watches| == |seen| == |seenSubs|
        invariant forall l: Lit :: !Flag(seen, l) && !Flag(seenSubs, l)
        invariant !ok ==> needToFinish
        invariant Underway(
          b0.watches, watches, cache, list0, list, times, kept, j, i, countTime, maxCountTime, ok, needToFinish)
        decreases |list0| - i
      {
        if needToFinish {
          KeepNext(list0, list, others, j, i, Db(Current(list, j, i) + others), b0, cache);
          PassOn(b0.watches, watches, cache, list0, list, times, kept, j, i, countTime, maxCountTime, ok);
          list := list[j := list[i]];
          i, j := i + 1, j + 1;
          continue;
        }
        if countTime > maxCountTime {
          needToFinish := true;
        }
        ghost var list1, ws1, j1, time := list, watches, j, countTime;
        j, seen, seenSubs := VisitNext(i, j, seen, seenSubs, b0, list0);
        if !ok {
          needToFinish := true;
        }
        Visit(b0.watches, ws1, watches, cache, list0, list1, list, times, kept, j1, j, i, time, countTime, maxCountTime,
          ok, needToFinish);
        times, kept := times + [countTime], j;
        i := i + 1;
      }
      Finish(list0, list, others, j, Db(Current(list, j, i) + others), b0, cache);
      EndPass(b0.watches, watches, cache, list0, list, times, kept, j, countTime, maxCountTime, ok, needToFinish);
      list := list[..j];
      r := ok;
    }

    /** One round of the loop that is not cut short. */
    method VisitNext(i: nat, j0: nat, seen0: seq<bool>, seenSubs0: seq<bool>, ghost b0: Base, ghost list0: seq<Cl>)
      returns (j: nat, seen: seq<bool>, seenSubs: seq<bool>)
      requires ok && j0 <= i < |list| == |list0| && |cache| == |watches| == |seen0| == |seenSubs0|
      requires Progress(b0, list0, Db(Current(list, j0, i) + others), list, others, j0, i, cache)
      requires forall c :: c in list0 ==> InRange(c.lits, |watches|)
      requires forall l: Lit :: !Flag(seen0, l) && !Flag(seenSubs0, l)
      modifies this`ok, this`units, this`watches, this`countTime, this`list
      ensures j0 <= j <= i + 1 && |list| == |list0|
      ensures list[..j0] == old(list)[..j0] && AllCleaned(old(watches), cache, list[j0..j])
      ensures BinsStay(old(watches), watches) && list[i + 1..] == old(list)[i + 1..]
      ensures Priced(
        old(watches), cache, old(list)[i].lits, |old(list)[i].lits|, old(countTime), countTime)
      ensures Longer(old(watches), watches, 1)
      ensures Progress(b0, list0, Db(Current(list, j, i + 1) + others), list, others, j, i + 1, cache)
      ensures |watches| == |old(watches)| == |seen| == |seenSubs|
      ensures forall l: Lit :: !Flag(seen, l) && !Flag(seenSubs, l)
    {
      hide Models, Settled, HasPart, HasWhole, OneDone, Grows, InRange, Sound, Progress, Current, RestOf, Flag, Put,
        Hit, Exhausted, Cleaned, BinsStay, AllCleaned, Priced, Longer, VivifiedAs, KeptOf, ScanFlags, MarkAll;
      ghost var rest := RestOf(list, j0, i, others);
      ghost var b := Db(Current(list, j0, i) + others);
      AtNext(list0, list, others, j0, i, b, b0, cache);
      var ret;
      ret, seen, seenSubs := VivifyOne(list[i], seen0, seenSubs0, Current(list, j0, i) + others, rest);
      ghost var list1 := list;
      ProgressStep(b0, list0, b, Db(rest + ret), list, others, j0, i, ret, cache);
      PutOne(list, j0, ret);
      j := j0;
      if |ret| == 1 {
        list := list[j := ret[0]];
        j := j + 1;
      }
      assert list == Put(list1, j0, ret) && j == j0 + |ret|;
      assert list[i + 1..] == list1[i + 1..];
      PutAt(list1, j0, ret);
    }

    function Db(cls: seq<Cl>): Base
      reads this
    {
      Base(ok, units, cls, watches)
    }

    /** `findWatchedOfBin` for a learnt clause. */
    method FindBin(x: Lit, y: Lit) returns (i: nat)
      requires ToInt(Neg(x)) < |watches| && Bin(y, true) in At(watches, x)
      ensures i < |At(watches, x)| && At(watches, x)[i] == Bin(y, true)
    {
      i := 0;
      while watches[ToInt(Neg(x))][i] != Bin(y, true)
        invariant i < |At(watches, x)| && forall k :: 0 <= k < i ==> At(watches, x)[k] != Bin(y, true)
        decreases |At(watches, x)| - i
      {
        i := i + 1;
      }
    }
  }
}
