/**
 What happens to the memory while clauses are consolidated: each clause that is not
 freed is copied behind the others in new stacks, and its old place is overwritten with
 the new offset and pointer.  Copies and old places never overlap, so nothing that is
 still needed is overwritten; and the new stacks always suffice.
 */
module Consolidation {
  import opened ClauseStacks
  import opened Cnf

  /** The words that are copied: the clause, and no less than a forwarding entry needs. */
  function NeedOf(mem: seq<Word>, p: nat): nat {
    if p < |mem| && mem[p].Head? && mem[p].size > 2 then HEADER + mem[p].size else HEADER + 2
  }

  ghost predicate Copied(mem0: seq<Word>, p: nat, mem: seq<Word>, q: nat, n: nat) {
    p + n <= |mem0| && q + n <= |mem| && mem[q..q + n] == mem0[p..p + n]
  }

  /** The old place of `b` says where the clause is now, and it is there. */
  ghost predicate Forwarded(mem0: seq<Word>, mem: seq<Word>, news: seq<Stack>, b: Block, q: nat) {
    && b.p + HEADER + 2 <= |mem| && mem[b.p].NewOffset? && mem[b.p + 2] == NewPointer(q)
    && mem[b.p].o % NUM_STACKS < |news| && PointerOf(news, mem[b.p].o) == q
    && Copied(mem0, b.p, mem, q, NeedOf(mem0, b.p)) && Block(q, NeedOf(mem0, b.p)) in All(news)
  }

  /** Those in `dest` are copied to where it says; the others are untouched. */
  ghost predicate Moving(mem0: seq<Word>, mem: seq<Word>, news: seq<Stack>, live: seq<Block>, dest: map<nat, nat>) {
    && |mem0| <= |mem| && Valid(mem, news) && (forall i :: 0 <= i < |news| ==> news[i].start >= |mem0|)
    && (forall b :: b in live && b.p in dest ==> Forwarded(mem0, mem, news, b, dest[b.p]))
    && (forall b :: b in live && b.p !in dest ==> SameAt(mem0, mem, b.p, b.p + b.len))
  }

  ghost predicate Lands(mem0: seq<Word>, dest: map<nat, nat>, p: nat, nb: Block) {
    p in dest && nb == Block(dest[p], NeedOf(mem0, p))
  }

  /** The new blocks are exactly the destinations, one for each clause. */
  ghost predicate Exactly(mem0: seq<Word>, news: seq<Stack>, dest: map<nat, nat>) {
    && (forall nb :: nb in All(news) ==> exists p :: Lands(mem0, dest, p, nb))
    && (forall p, p' :: p in dest && p' in dest && dest[p] == dest[p'] ==> p == p')
    && (forall p :: p in dest ==> Block(dest[p], NeedOf(mem0, p)) in All(news))
  }

  /** The clauses to move: valid, not freed, apart from each other. */
  ghost predicate Movable(mem0: seq<Word>, live: seq<Block>) {
    && AllApart(live) && forall b :: b in live ==> ClauseAt(mem0, b) && !Freed(mem0, b.p)
  }

  /** The words of clause `b` go to the end of stack `w`. */
  function CopyTo(mem: seq<Word>, news: seq<Stack>, w: nat, p: nat, n: nat): (r: seq<Word>)
    requires w < |news| && p + n <= |mem| && news[w].start + news[w].size + n <= |mem|
    ensures |r| == |mem|
  {
    Written(mem, news[w].start + news[w].size, mem[p..p + n])
  }

  function Forward(mem: seq<Word>, p: nat, o: nat, q: nat): (r: seq<Word>)
    requires p + HEADER + 2 <= |mem|
    ensures |r| == |mem|
    ensures forall a :: 0 <= a < |mem| && !(p <= a < p + 4) ==> r[a] == mem[a]
    ensures r[p] == NewOffset(o) && r[p + 2] == NewPointer(q)
  {
    mem[p := NewOffset(o)][p + 1 := Junk][p + 2 := NewPointer(q)][p + 3 := Junk]
  }

  /** Memory below the new stacks does not matter to them. */
  lemma ValidAbove(mem: seq<Word>, mem': seq<Word>, news: seq<Stack>, base: nat)
    requires Valid(mem, news) && |mem| == |mem'| && base <= |mem|
    requires forall i :: 0 <= i < |news| ==> news[i].start >= base
    requires forall a :: base <= a < |mem| ==> mem'[a] == mem[a]
    ensures Valid(mem', news)
  {
    forall i | 0 <= i < |news| ensures StackOk(mem', news[i]) {
      assert StackOk(mem, news[i]);
      StackBound(mem, news[i]);
      hide StackOk;
      StackSame(mem, mem', news[i]);
    }
  }

  lemma StartsKept(news: seq<Stack>, w: nat, len: nat, o: nat)
    requires w < |news| && o % NUM_STACKS < |news|
    ensures PointerOf(news[w := Bumped(news[w], len)], o) == PointerOf(news, o)
  {
  }

  /** The new stack and its contents after one clause was copied. */
  lemma CopyValid(mem0: seq<Word>, mem: seq<Word>, news: seq<Stack>, b: Block, w: nat)
    requires ClauseAt(mem0, b) && !Freed(mem0, b.p) && |mem0| <= |mem| && SameAt(mem0, mem, b.p, b.p + b.len)
    requires Valid(mem, news) && w < |news| && news[w].size + NeedOf(mem0, b.p) <= news[w].max
    requires news[w].start >= |mem0|
    requires StackOk(mem, news[w])
    ensures news[w].start + news[w].size + NeedOf(mem0, b.p) <= |mem|
    ensures Valid(CopyTo(mem, news, w, b.p, NeedOf(mem0, b.p)), news[w := Bumped(news[w], NeedOf(mem0, b.p))])
    ensures var n := NeedOf(mem0, b.p); Copied(mem0, b.p, CopyTo(mem, news, w, b.p, n), news[w].start + news[w].size, n)
    ensures OnlyBeyond(mem, CopyTo(mem, news, w, b.p, NeedOf(mem0, b.p)), news[w])
  {
    hide StackOk, Valid, Copied, Written, Freed;
    var st, n := news[w], NeedOf(mem0, b.p);
    StackBound(mem, st);
    var mem' := CopyTo(mem, news, w, b.p, n);
    CopyIs(mem0, mem, b, st.start + st.size);
    WrittenBeyond(mem, st, mem[b.p..b.p + n]);
    StackGrows(mem, mem', st, n);
    OneStackChanges(mem, news, mem', w, Bumped(st, n));
  }

  lemma CopyIs(mem0: seq<Word>, mem: seq<Word>, b: Block, q: nat)
    requires ClauseAt(mem0, b) && !Freed(mem0, b.p) && |mem0| <= |mem| && SameAt(mem0, mem, b.p, b.p + b.len)
    requires q + NeedOf(mem0, b.p) <= |mem|
    ensures var n := NeedOf(mem0, b.p); var mem' := Written(mem, q, mem[b.p..b.p + n]);
      Copied(mem0, b.p, mem', q, n) && ClauseAt(mem', Block(q, n)) && !Freed(mem', q)
  {
    var n := NeedOf(mem0, b.p);
    var mem' := Written(mem, q, mem[b.p..b.p + n]);
    assert mem[b.p..b.p + n] == mem0[b.p..b.p + n];
    assert mem'[q..q + n] == mem[b.p..b.p + n];
    assert mem'[q] == mem'[q..q + n][0] == mem0[b.p..b.p + n][0] == mem0[b.p];
  }

  lemma ApartOf(bs: seq<Block>, b: Block, c: Block)
    requires AllApart(bs) && b in bs && c in bs && b != c
    ensures Apart(b, c)
  {
    var i :| 0 <= i < |bs| && bs[i] == b;
    var j :| 0 <= j < |bs| && bs[j] == c;
    assert if i < j then Apart(bs[i], bs[j]) else Apart(bs[j], bs[i]);
  }

  /** The memory after one clause was copied and its old place overwritten. */
  function Step(mem0: seq<Word>, mem: seq<Word>, news: seq<Stack>, p: nat, w: nat): (r: seq<Word>)
    requires w < |news| <= NUM_STACKS && p + NeedOf(mem0, p) <= |mem|
    requires news[w].start + news[w].size + NeedOf(mem0, p) <= |mem|
    ensures |r| == |mem|
  {
    Forward(CopyTo(mem, news, w, p, NeedOf(mem0, p)), p, Combine(w, news[w].size), news[w].start + news[w].size)
  }

  /** The step writes to the old place of the clause and to the end of stack `w`, nowhere else. */
  lemma StepWrites(mem0: seq<Word>, mem: seq<Word>, news: seq<Stack>, b: Block, w: nat)
    requires ClauseAt(mem0, b) && !Freed(mem0, b.p) && |mem0| <= |mem| && w < |news| <= NUM_STACKS
    requires StackOk(mem, news[w]) && news[w].size + NeedOf(mem0, b.p) <= news[w].max && news[w].start >= |mem0|
    ensures b.p + NeedOf(mem0, b.p) <= |mem| && news[w].start + news[w].size + NeedOf(mem0, b.p) <= |mem|
    ensures forall a :: 0 <= a < |mem0| && !(b.p <= a < b.p + b.len) ==> Step(mem0, mem, news, b.p, w)[a] == mem[a]
    ensures var q := news[w].start + news[w].size;
      forall a :: |mem0| <= a < |mem| && !(q <= a < news[w].start + news[w].max) ==>
        Step(mem0, mem, news, b.p, w)[a] == mem[a]
  {
  }

  /** One clause whose turn has come. */
  ghost predicate Turn(
    mem0: seq<Word>, mem: seq<Word>, news: seq<Stack>, live: seq<Block>, dest: map<nat, nat>, b: Block, w: nat)
  {
    && Moving(mem0, mem, news, live, dest) && Movable(mem0, live) && b in live && b.p !in dest
    && w < |news| && news[w].size + NeedOf(mem0, b.p) <= news[w].max
  }

  lemma TurnFacts(
      mem0: seq<Word>, mem: seq<Word>, news: seq<Stack>, live: seq<Block>, dest: map<nat, nat>, b: Block, w: nat)
    requires Turn(mem0, mem, news, live, dest, b, w)
    ensures ClauseAt(mem0, b) && !Freed(mem0, b.p) && |mem0| <= |mem| && SameAt(mem0, mem, b.p, b.p + b.len)
    ensures w < |news| && news[w].size + NeedOf(mem0, b.p) <= news[w].max && b.p !in dest && b in live
    ensures Movable(mem0, live)
    ensures Moving(mem0, mem, news, live, dest)
    ensures forall i :: 0 <= i < |news| ==> news[i].start >= |mem0|
    ensures Valid(mem, news) && news[w].start >= |mem0| && StackOk(mem, news[w]) && |news| <= NUM_STACKS
    ensures b.p + NeedOf(mem0, b.p) <= |mem| && news[w].start + news[w].size + NeedOf(mem0, b.p) <= |mem|
  {
  }

  lemma StepValid(
      mem0: seq<Word>, mem: seq<Word>, news: seq<Stack>, live: seq<Block>, dest: map<nat, nat>, b: Block, w: nat)
    requires Turn(mem0, mem, news, live, dest, b, w)
    ensures b.p + NeedOf(mem0, b.p) <= |mem| && news[w].start + news[w].size + NeedOf(mem0, b.p) <= |mem|
    ensures |news| <= NUM_STACKS
    ensures Valid(Step(mem0, mem, news, b.p, w), news[w := Bumped(news[w], NeedOf(mem0, b.p))])
    ensures Copied(mem0, b.p, Step(mem0, mem, news, b.p, w), news[w].start + news[w].size, NeedOf(mem0, b.p))
  {
    hide Valid, CopyTo, Turn, StackOk, Bumped;
    TurnFacts(mem0, mem, news, live, dest, b, w);
    var n := NeedOf(mem0, b.p);
    CopyValid(mem0, mem, news, b, w);
    var mem1 := CopyTo(mem, news, w, b.p, n);
    var q := news[w].start + news[w].size;
    var mem2 := Forward(mem1, b.p, Combine(w, news[w].size), q);
    var news' := news[w := Bumped(news[w], n)];
    StartsStay(news, w, n, |mem0|, news');
    ValidAbove(mem1, mem2, news', |mem0|);
    assert mem2[q..q + n] == mem1[q..q + n];
  }

  /** A clause that is still to move is not touched. */
  lemma StepLeaves(
      mem0: seq<Word>, mem: seq<Word>, news: seq<Stack>, live: seq<Block>, dest: map<nat, nat>, b: Block, w: nat,
      c: Block)
    requires Turn(mem0, mem, news, live, dest, b, w) && c in live && c != b && |news| <= NUM_STACKS
    requires b.p + NeedOf(mem0, b.p) <= |mem| && news[w].start + news[w].size + NeedOf(mem0, b.p) <= |mem|
    ensures SameAt(mem, Step(mem0, mem, news, b.p, w), c.p, c.p + c.len) && c.p != b.p && ClauseAt(mem0, c)
  {
    hide Valid, Step, StackOk, Moving;
    TurnFacts(mem0, mem, news, live, dest, b, w);
    ApartOf(live, b, c);
    assert ClauseAt(mem0, c) && ClauseAt(mem0, b);
    StepWrites(mem0, mem, news, b, w);
  }

  /** What is in the new stacks already stays. */
  lemma NewStays(
      mem0: seq<Word>, mem: seq<Word>, news: seq<Stack>, live: seq<Block>, dest: map<nat, nat>, b: Block, w: nat,
      nb: Block)
    requires Turn(mem0, mem, news, live, dest, b, w) && nb in All(news) && |news| <= NUM_STACKS
    requires b.p + NeedOf(mem0, b.p) <= |mem| && news[w].start + news[w].size + NeedOf(mem0, b.p) <= |mem|
    ensures SameAt(mem, Step(mem0, mem, news, b.p, w), nb.p, nb.p + nb.len)
  {
    hide Step, StackOk, All, Blocks, Turn;
    TurnFacts(mem0, mem, news, live, dest, b, w);
    StepWrites(mem0, mem, news, b, w);
    var i := BlockStack(mem, news, nb);
    assert news[i].start >= |mem0|;
    assert i != w ==> if i < w then StacksApart(news[i], news[w]) else StacksApart(news[w], news[i]);
    StackBound(mem, news[i]);
  }

  /** A clause that has moved stays where it is, and its old place still says so. */
  lemma StillForwarded(
      mem0: seq<Word>, mem: seq<Word>, mem2: seq<Word>, news: seq<Stack>, news2: seq<Stack>, c: Block, q: nat,
      nb: Block)
    requires Forwarded(mem0, mem, news, c, q) && HEADER + 2 <= c.len && SameAt(mem, mem2, c.p, c.p + c.len)
    requires SameAt(mem, mem2, q, q + NeedOf(mem0, c.p)) && OneMore(All(news), All(news2), nb) && |news2| == |news|
    requires forall o: nat :: o % NUM_STACKS < |news| ==> PointerOf(news2, o) == PointerOf(news, o)
    ensures Forwarded(mem0, mem2, news2, c, q)
  {
    hide All, NeedOf;
    var m := NeedOf(mem0, c.p);
    assert mem2[q..q + m] == mem[q..q + m];
  }

  lemma StepKeeps(
      mem0: seq<Word>, mem: seq<Word>, news: seq<Stack>, live: seq<Block>, dest: map<nat, nat>, b: Block, w: nat,
      c: Block)
    requires Turn(mem0, mem, news, live, dest, b, w) && c in live && c.p in dest && |news| <= NUM_STACKS && w < |news|
    requires b.p + NeedOf(mem0, b.p) <= |mem| && news[w].start + news[w].size + NeedOf(mem0, b.p) <= |mem|
    requires Forwarded(mem0, mem, news, c, dest[c.p]) && c != b
    ensures Forwarded(mem0, Step(mem0, mem, news, b.p, w), news[w := Bumped(news[w], NeedOf(mem0, b.p))], c, dest[c.p])
  {
    hide Turn, Valid, Step, StackOk, All, Blocks, Bumped, PointerOf, NeedOf, OneMore;
    var n, q, m := NeedOf(mem0, b.p), dest[c.p], NeedOf(mem0, c.p);
    TurnFacts(mem0, mem, news, live, dest, b, w);
    StepLeaves(mem0, mem, news, live, dest, b, w, c);
    NewStays(mem0, mem, news, live, dest, b, w, Block(q, m));
    AddedBlocks(mem, news, w, n);
    forall o: nat | o % NUM_STACKS < |news| ensures PointerOf(news[w := Bumped(news[w], n)], o) == PointerOf(news, o) {
      StartsKept(news, w, n, o);
    }
    StillForwarded(mem0, mem, Step(mem0, mem, news, b.p, w), news, news[w := Bumped(news[w], n)], c, q,
      Block(news[w].start + news[w].size, n));
  }

  lemma NewPlace(mem: seq<Word>, news: seq<Stack>, w: nat, nb: Block)
    requires Valid(mem, news) && w < |news| && nb in All(news) && news[w].size < news[w].max
    ensures nb.p != news[w].start + news[w].size
  {
    hide All, Blocks, Live;
    var i := BlockStack(mem, news, nb);
    StackBound(mem, news[i]);
    assert i != w ==> if i < w then StacksApart(news[i], news[w]) else StacksApart(news[w], news[i]);
  }

  lemma StepExactly(
      mem0: seq<Word>, mem: seq<Word>, news: seq<Stack>, dest: map<nat, nat>, p: nat, w: nat, n: nat, news': seq<Stack>,
      dest': map<nat, nat>)
    requires Valid(mem, news) && w < |news| && StackOk(mem, news[w]) && n == NeedOf(mem0, p) && 0 < n
    requires news[w].size + n <= news[w].max && p !in dest && Exactly(mem0, news, dest)
    requires news' == news[w := Bumped(news[w], n)] && dest' == dest[p := news[w].start + news[w].size]
    ensures Exactly(mem0, news', dest')
  {
    hide Valid, StackOk, All, Blocks, Bumped, NeedOf;
    var q := news[w].start + news[w].size;
    AddedBlocks(mem, news, w, n);
    forall x | x in dest ensures dest[x] != q {
      NewPlace(mem, news, w, Block(dest[x], NeedOf(mem0, x)));
    }
    forall nb: Block | nb in All(news')
      ensures exists x :: Lands(mem0, dest', x, nb)
    {
      if nb in All(news) {
        var x :| Lands(mem0, dest, x, nb);
        assert Lands(mem0, dest', x, nb);
      } else {
        assert Lands(mem0, dest', p, nb);
      }
    }
  }

  lemma StepForwards(
      mem0: seq<Word>, mem: seq<Word>, news: seq<Stack>, live: seq<Block>, dest: map<nat, nat>, b: Block, w: nat)
    requires Turn(mem0, mem, news, live, dest, b, w) && |news| <= NUM_STACKS && w < |news|
    requires b.p + NeedOf(mem0, b.p) <= |mem| && news[w].start + news[w].size + NeedOf(mem0, b.p) <= |mem|
    ensures Forwarded(mem0, Step(mem0, mem, news, b.p, w), news[w := Bumped(news[w], NeedOf(mem0, b.p))], b,
      news[w].start + news[w].size)
  {
    hide Turn, Valid, StackOk, All, Blocks, CopyTo, Copied;
    TurnFacts(mem0, mem, news, live, dest, b, w);
    StepValid(mem0, mem, news, live, dest, b, w);
    AddedBlocks(mem, news, w, NeedOf(mem0, b.p));
  }

  /** One clause is moved. */
  lemma StepMoves(
      mem0: seq<Word>, mem: seq<Word>, news: seq<Stack>, live: seq<Block>, dest: map<nat, nat>, b: Block, w: nat,
      news': seq<Stack>, dest': map<nat, nat>)
    requires Turn(mem0, mem, news, live, dest, b, w) && Exactly(mem0, news, dest) && w < |news| <= NUM_STACKS
    requires news' == news[w := Bumped(news[w], NeedOf(mem0, b.p))]
    requires dest' == dest[b.p := news[w].start + news[w].size]
    ensures b.p + NeedOf(mem0, b.p) <= |mem| && news[w].start + news[w].size + NeedOf(mem0, b.p) <= |mem|
    ensures Moving(mem0, Step(mem0, mem, news, b.p, w), news', live, dest') && Exactly(mem0, news', dest')
  {
    hide Valid, StackOk, Exactly, Forwarded, Movable, Step, Copied, Bumped;
    StepValid(mem0, mem, news, live, dest, b, w);
    TurnFacts(mem0, mem, news, live, dest, b, w);
    StepExactly(mem0, mem, news, dest, b.p, w, NeedOf(mem0, b.p), news', dest');
    StepForwards(mem0, mem, news, live, dest, b, w);
    var mem2 := Step(mem0, mem, news, b.p, w);
    forall c | c in live && c != b
      ensures c.p in dest' ==> Forwarded(mem0, mem2, news', c, dest'[c.p])
      ensures c.p !in dest' ==> SameAt(mem0, mem2, c.p, c.p + c.len)
    {
      StepLeaves(mem0, mem, news, live, dest, b, w, c);
      if c.p in dest {
        StepKeeps(mem0, mem, news, live, dest, b, w, c);
      }
    }
    StartsStay(news, w, NeedOf(mem0, b.p), |mem0|, news');
  }

  lemma StartsStay(news: seq<Stack>, w: nat, n: nat, base: nat, news': seq<Stack>)
    requires w < |news| && (forall i :: 0 <= i < |news| ==> news[i].start >= base)
    requires news' == news[w := Bumped(news[w], n)]
    ensures forall i :: 0 <= i < |news'| ==> news'[i].start >= base
  {
  }

  // ----- the clauses to move -----

  /** The blocks whose clauses are not freed. */
  function LiveBlocks(mem0: seq<Word>, bs: seq<Block>): seq<Block> {
    if bs == [] then []
    else
      var last := |bs| - 1;
      LiveBlocks(mem0, bs[..last]) + if Freed(mem0, bs[last].p) then [] else [bs[last]]
  }

  function Pointers(bs: seq<Block>): (r: seq<nat>)
    ensures |r| == |bs| && forall i :: 0 <= i < |bs| ==> r[i] == bs[i].p
  {
    seq(|bs|, i requires 0 <= i < |bs| => bs[i].p)
  }

  lemma {:induction false} LiveMembers(mem0: seq<Word>, bs: seq<Block>)
    ensures forall b :: b in LiveBlocks(mem0, bs) <==> b in bs && !Freed(mem0, b.p)
    ensures AllApart(bs) ==> AllApart(LiveBlocks(mem0, bs))
  {
    if bs != [] {
      var last := |bs| - 1;
      LiveMembers(mem0, bs[..last]);
      var front := LiveBlocks(mem0, bs[..last]);
      if AllApart(bs) {
        assert AllApart(bs[..last]);
        forall i | 0 <= i < |front| ensures Apart(front[i], bs[last]) {
          assert front[i] in front;
          var k :| 0 <= k < last && bs[k] == front[i];
        }
      }
    }
  }

  /** The words that will be copied. */
  function NeedTotal(mem0: seq<Word>, ps: seq<nat>): nat {
    if ps == [] then 0 else NeedTotal(mem0, ps[..|ps| - 1]) + NeedOf(mem0, ps[|ps| - 1])
  }

  lemma NeedAppend(mem0: seq<Word>, ps: seq<nat>, p: nat)
    ensures NeedTotal(mem0, ps + [p]) == NeedTotal(mem0, ps) + NeedOf(mem0, p)
  {
    assert (ps + [p])[..|ps|] == ps;
  }

  /** Clauses need no more than the blocks they are in. */
  lemma {:induction false} NeedWithinLive(mem0: seq<Word>, bs: seq<Block>)
    requires forall b :: b in bs ==> ClauseAt(mem0, b)
    ensures NeedTotal(mem0, Pointers(LiveBlocks(mem0, bs))) <= Live(mem0, bs)
  {
    if bs == [] {
      assert Pointers(LiveBlocks(mem0, bs)) == [];
    } else {
      var last := |bs| - 1;
      var front := LiveBlocks(mem0, bs[..last]);
      NeedWithinLive(mem0, bs[..last]);
      assert ClauseAt(mem0, bs[last]);
      if !Freed(mem0, bs[last].p) {
        assert Pointers(front + [bs[last]]) == Pointers(front) + [bs[last].p];
        NeedAppend(mem0, Pointers(front), bs[last].p);
      } else {
        assert front + [] == front;
      }
    }
  }

  /** The estimates of all stacks. */
  function UsedTotal(stacks: seq<Stack>): int {
    if stacks == [] then 0 else UsedTotal(stacks[..|stacks| - 1]) + stacks[|stacks| - 1].used
  }

  lemma {:induction false} LiveAppend(mem: seq<Word>, xs: seq<Block>, ys: seq<Block>)
    ensures Live(mem, xs + ys) == Live(mem, xs) + Live(mem, ys)
    ensures Lost(mem, xs + ys) == Lost(mem, xs) + Lost(mem, ys)
  {
    if ys == [] {
      assert xs + ys == xs;
    } else {
      var last := |ys| - 1;
      LiveAppend(mem, xs, ys[..last]);
      assert (xs + ys)[..|xs + ys| - 1] == xs + ys[..last];
    }
  }

  /**
   The estimates exceed the words of the clauses alive by exactly what clauses had lost to
   shrinking before they were freed.
   */
  lemma {:induction false} EstimateExact(mem: seq<Word>, stacks: seq<Stack>)
    requires forall i :: 0 <= i < |stacks| ==> StackOk(mem, stacks[i])
    ensures UsedTotal(stacks) == Live(mem, All(stacks)) + Lost(mem, All(stacks))
    ensures forall b :: b in All(stacks) ==> ClauseAt(mem, b)
  {
    if stacks != [] {
      var last := |stacks| - 1;
      EstimateExact(mem, stacks[..last]);
      LiveAppend(mem, All(stacks[..last]), Blocks(stacks[last].start, stacks[last].orig));
      assert StackOk(mem, stacks[last]);
    }
  }

  /** The words taken in all stacks. */
  function SizeTotal(stacks: seq<Stack>): nat {
    if stacks == [] then 0 else SizeTotal(stacks[..|stacks| - 1]) + stacks[|stacks| - 1].size
  }

  lemma {:induction false} TotalsChange(stacks: seq<Stack>, i: nat, st': Stack)
    requires i < |stacks|
    ensures UsedTotal(stacks[i := st']) == UsedTotal(stacks) + st'.used - stacks[i].used
    ensures SizeTotal(stacks[i := st']) == SizeTotal(stacks) + st'.size - stacks[i].size
  {
    var stacks', last := stacks[i := st'], |stacks| - 1;
    if i < last {
      TotalsChange(stacks[..last], i, st');
      assert stacks'[..last] == stacks[..last][i := st'];
    } else {
      assert stacks'[..last] == stacks[..last];
    }
  }

  /** No clause in these blocks was ever shrunk: each takes its whole block. */
  ghost predicate Unshrunk(mem: seq<Word>, bs: seq<Block>) {
    forall b :: b in bs ==> Whole(mem, b)
  }

  predicate Whole(mem: seq<Word>, b: Block) {
    b.p < |mem| && mem[b.p].Head? && b.len == HEADER + mem[b.p].size
  }

  lemma {:induction false} NothingWasted(mem: seq<Word>, bs: seq<Block>)
    requires forall b :: b in bs ==> Waste(mem, b) == 0
    ensures Lost(mem, bs) == 0
  {
    if bs != [] {
      assert bs[|bs| - 1] in bs;
      NothingWasted(mem, bs[..|bs| - 1]);
    }
  }

  /** As long as no clause is shrunk the estimates are the words alive. */
  lemma UnshrunkExact(mem: seq<Word>, stacks: seq<Stack>)
    requires Valid(mem, stacks) && Unshrunk(mem, All(stacks))
    ensures UsedTotal(stacks) == Live(mem, All(stacks))
  {
    hide Live, All;
    EstimateExact(mem, stacks);
    NothingWasted(mem, All(stacks));
  }

  lemma AllClauses(mem: seq<Word>, stacks: seq<Stack>)
    requires Valid(mem, stacks)
    ensures forall b :: b in All(stacks) ==> ClauseAt(mem, b)
    ensures UsedTotal(stacks) == Live(mem, All(stacks)) + Lost(mem, All(stacks))
  {
    EstimateExact(mem, stacks);
  }

  /** Freeing: the words alive drop by the block of the clause, the estimates by what it needs now. */
  lemma FreeTotals(mem: seq<Word>, stacks: seq<Stack>, outer: nat, b: Block)
    requires Valid(mem, stacks) && b in All(stacks) && outer < |stacks|
    requires b.p < |mem| && mem[b.p].Head? && !mem[b.p].freed
    ensures Freeing(mem, stacks, outer, b)
  {
    hide Valid, All, AllApart, Live, Lost, UsedTotal, SizeTotal;
    NoOverlap(mem, stacks);
    AllClauses(mem, stacks);
    assert ClauseAt(mem, b);
    LiveFreed(mem, All(stacks), b);
    TotalsChange(stacks, outer, Lowered(stacks[outer], HEADER + mem[b.p].size));
  }

  /** A clause of `len` words more: so many more are taken, alive and estimated, and nothing more is lost. */
  ghost predicate Adds(mem: seq<Word>, stacks: seq<Stack>, mem': seq<Word>, stacks': seq<Stack>, len: nat) {
    && Live(mem', All(stacks')) == Live(mem, All(stacks)) + len && Lost(mem', All(stacks')) == Lost(mem, All(stacks))
    && UsedTotal(stacks') == UsedTotal(stacks) + len && SizeTotal(stacks') == SizeTotal(stacks) + len
  }

  /** The clause in `b` is freed: its block is alive no more, and what the clause had been shrunk by is lost. */
  ghost predicate Frees(mem: seq<Word>, mem': seq<Word>, bs: seq<Block>, b: Block) {
    && b.p < |mem| && mem[b.p].Head? && HEADER + mem[b.p].size <= b.len
    && Live(mem', bs) == Live(mem, bs) - b.len
    && Lost(mem', bs) == Lost(mem, bs) + b.len - (HEADER + mem[b.p].size)
  }

  /** Everything about the sums when the clause in block `b` of stack `outer` is freed. */
  ghost predicate Freeing(mem: seq<Word>, stacks: seq<Stack>, outer: nat, b: Block)
    requires b.p < |mem| && mem[b.p].Head? && outer < |stacks|
  {
    var n := HEADER + mem[b.p].size;
    var mem', stacks' := mem[b.p := mem[b.p].(freed := true)], stacks[outer := Lowered(stacks[outer], n)];
    && Frees(mem, mem', All(stacks), b)
    && UsedTotal(stacks') == UsedTotal(stacks) - n && SizeTotal(stacks') == SizeTotal(stacks)
    && (Unshrunk(mem, All(stacks)) ==> Unshrunk(mem', All(stacks)))
  }

  /** A new clause adds as much to the estimates as to the words alive, and nothing to what is lost. */
  lemma NewAdds(mem: seq<Word>, mem': seq<Word>, stacks: seq<Stack>, w: nat, len: nat)
    requires w < |stacks| && SameBlocks(mem, mem', All(stacks))
    requires StackOk(mem, stacks[w]) && !Freed(mem', stacks[w].start + stacks[w].size)
    ensures Adds(mem, stacks, mem', stacks[w := Bumped(stacks[w], len)], len)
  {
    hide Live, Lost, All, Blocks, ClauseAt, SameBlocks;
    TotalsChange(stacks, w, Bumped(stacks[w], len));
    LiveGrows(mem, mem', stacks, w, len);
  }

  /** The blocks `bs` are the same in both memories. */
  ghost predicate SameBlocks(mem: seq<Word>, mem': seq<Word>, bs: seq<Block>) {
    forall b :: b in bs ==> SameAt(mem, mem', b.p, b.p + b.len) && b.len > 0
  }

  lemma LiveSameBlocks(mem: seq<Word>, mem': seq<Word>, bs: seq<Block>)
    requires SameBlocks(mem, mem', bs)
    ensures Live(mem', bs) == Live(mem, bs) && Lost(mem', bs) == Lost(mem, bs)
  {
    LiveSame(mem, mem', bs);
  }

  lemma {:induction false} LiveGrows(mem: seq<Word>, mem': seq<Word>, stacks: seq<Stack>, w: nat, len: nat)
    requires w < |stacks| && SameBlocks(mem, mem', All(stacks))
    requires !Freed(mem', stacks[w].start + Sum(stacks[w].orig))
    ensures var stacks' := stacks[w := Bumped(stacks[w], len)];
      Live(mem', All(stacks')) == Live(mem, All(stacks)) + len && Lost(mem', All(stacks')) == Lost(mem, All(stacks))
  {
    hide Live, Lost, Freed, Sum, Blocks, SameAt;
    var last, st' := |stacks| - 1, Bumped(stacks[w], len);
    var front, bs := stacks[..last], Blocks(stacks[last].start, stacks[last].orig);
    var stacks' := stacks[w := st'];
    assert All(stacks) == All(front) + bs;
    LiveAppend(mem, All(front), bs);
    assert SameBlocks(mem, mem', All(front)) && SameBlocks(mem, mem', bs);
    LiveSameBlocks(mem, mem', bs);
    if w == last {
      assert stacks'[..last] == front;
      LiveAppend(mem', All(front), Blocks(st'.start, st'.orig));
      NotWasted(mem', stacks[w].start + Sum(stacks[w].orig), len);
      BlocksGrow(mem', stacks[w].start, stacks[w].orig, len);
      LiveSameBlocks(mem, mem', All(front));
    } else {
      assert stacks'[..last] == front[w := st'];
      LiveAppend(mem', All(front[w := st']), bs);
      LiveGrows(mem, mem', front, w, len);
    }
  }

  lemma NotWasted(mem: seq<Word>, p: nat, len: nat)
    requires !Freed(mem, p)
    ensures Waste(mem, Block(p, len)) == 0
  {
  }

  lemma PutAdds(mem: seq<Word>, stacks: seq<Stack>, w: nat, ps: seq<nat>, flags: nat, abst: nat)
    requires Valid(mem, stacks) && w < |stacks| && 2 < |ps| < SIZE_LIMIT
    requires stacks[w].size + HEADER + |ps| < stacks[w].max
    ensures stacks[w].start + stacks[w].size + HEADER + |ps| <= |mem|
    ensures Adds(mem, stacks, Written(mem, stacks[w].start + stacks[w].size, ClauseWords(ps, flags, abst)),
      stacks[w := Bumped(stacks[w], HEADER + |ps|)], HEADER + |ps|)
  {
    hide Adds, Valid, StackOk, All, Live, Lost, UsedTotal, SizeTotal, Bumped, Written, ClauseWords, OnlyBeyond, SameAt;
    StackIn(mem, stacks, w);
    Putting(mem, stacks, w, ps, flags, abst);
    var mem' := Written(mem, stacks[w].start + stacks[w].size, ClauseWords(ps, flags, abst));
    OldBlocksStay(mem, stacks, w, mem');
    AllClauses(mem, stacks);
    NewAdds(mem, mem', stacks, w, HEADER + |ps|);
  }

  lemma PrefixLive(mem: seq<Word>, mem': seq<Word>, stacks: seq<Stack>)
    requires Valid(mem, stacks) && mem <= mem'
    ensures Live(mem', All(stacks)) == Live(mem, All(stacks)) && Lost(mem', All(stacks)) == Lost(mem, All(stacks))
  {
    hide Valid, All, Live, Lost;
    AllClauses(mem, stacks);
    forall b | b in All(stacks) ensures b.p < |mem| && mem'[b.p] == mem[b.p] {
      assert ClauseAt(mem, b) && mem'[..|mem|][b.p] == mem[b.p];
    }
    LiveSame(mem, mem', All(stacks));
  }

  /** A clause added after a new stack was. */
  lemma AddsAfter(
      mem0: seq<Word>, stacks0: seq<Stack>, mem1: seq<Word>, stacks1: seq<Stack>, mem: seq<Word>,
      stacks: seq<Stack>, len: nat)
    requires Valid(mem0, stacks0) && mem0 <= mem1 && All(stacks1) == All(stacks0)
    requires UsedTotal(stacks1) == UsedTotal(stacks0) && SizeTotal(stacks1) == SizeTotal(stacks0)
    requires Adds(mem1, stacks1, mem, stacks, len)
    ensures Adds(mem0, stacks0, mem, stacks, len)
  {
    hide Valid, All, Live, Lost, UsedTotal, SizeTotal;
    PrefixLive(mem0, mem1, stacks0);
  }

  lemma FewStacks(mem: seq<Word>, stacks: seq<Stack>)
    requires Valid(mem, stacks)
    ensures |stacks| <= NUM_STACKS
  {
  }

  lemma TotalsSnoc(stacks: seq<Stack>, st: Stack)
    ensures UsedTotal(stacks + [st]) == UsedTotal(stacks) + st.used
    ensures SizeTotal(stacks + [st]) == SizeTotal(stacks) + st.size
  {
    assert (stacks + [st])[..|stacks|] == stacks;
  }

  lemma UnshrunkGrows(
      mem: seq<Word>, mem': seq<Word>, bs: seq<Block>, bs': seq<Block>, p: nat, ps: seq<nat>, flags: nat)
    requires Unshrunk(mem, bs) && (forall b :: b in bs ==> SameAt(mem, mem', b.p, b.p + b.len))
    requires OneMore(bs, bs', Block(p, HEADER + |ps|)) && ClauseIs(mem', p, ps, flags)
    ensures Unshrunk(mem', bs')
  {
  }

  // ----- the new stacks suffice -----

  /** The capacity asked for: a fifth more than is used, and the least size of a list. */
  function NeedSize(sum: int): int {
    sum * 6 / 5 + MIN_LIST_SIZE
  }

  /** The bound of what one clause needs. */
  const CLAUSE_LIMIT: nat := HEADER + SIZE_LIMIT

  ghost predicate Enough(maxes: seq<nat>, sum: nat) {
    && 1 <= |maxes| <= NUM_STACKS && Sum(maxes) >= NeedSize(sum)
    && (forall i :: 0 <= i < |maxes| ==> MIN_LIST_SIZE <= maxes[i] <= MAXSIZE)
    && (|maxes| == 1 || NeedSize(sum) > MAXSIZE)
  }

  /** The capacity of a further stack: up to eight times the last one's. */
  function NextMax(stacks: seq<Stack>): nat {
    if stacks == [] then MIN_LIST_SIZE
    else Max(Min(stacks[|stacks| - 1].max * ALLOC_GROW_MULT, MAXSIZE), MIN_LIST_SIZE * 2)
  }

  /**
   Each new list covers what those before it leave of the need, as far as one list can, and is not
   less than half of the one before.
   */
  ghost predicate Sized(maxes: seq<nat>, sum: int) {
    forall k :: 0 <= k < |maxes| ==> SizedAt(maxes, sum, k)
  }

  ghost predicate SizedAt(maxes: seq<nat>, sum: int, k: nat)
    requires k < |maxes|
  {
    var rest := NeedSize(sum) - Sum(maxes[..k]);
    && rest > 0
    && maxes[k] == Max(Min(rest, MAXSIZE), if k == 0 then MIN_LIST_SIZE else Max(maxes[k - 1] / 2, MIN_LIST_SIZE * 2))
  }

  lemma SizedSnoc(maxes: seq<nat>, sum: int, m: nat)
    requires Sized(maxes, sum) && SizedAt(maxes + [m], sum, |maxes|)
    ensures Sized(maxes + [m], sum)
  {
    forall k | 0 <= k < |maxes + [m]|
      ensures SizedAt(maxes + [m], sum, k)
    {
      assert k < |maxes| ==> SizedAt(maxes, sum, k) && (maxes + [m])[..k] == maxes[..k];
    }
  }

  function Sizes(news: seq<Stack>): (r: seq<nat>)
    ensures |r| == |news| && forall i :: 0 <= i < |news| ==> r[i] == news[i].size
  {
    seq(|news|, i requires 0 <= i < |news| => news[i].size)
  }

  /** Lists that are all nearly full hold nearly their capacity. */
  lemma {:induction false} NearlyFull(sizes: seq<nat>, maxes: seq<nat>)
    requires |sizes| == |maxes| && forall i :: 0 <= i < |sizes| ==> sizes[i] + CLAUSE_LIMIT > maxes[i]
    ensures Sum(sizes) + |sizes| * CLAUSE_LIMIT >= Sum(maxes)
  {
    if sizes != [] {
      var last := |sizes| - 1;
      NearlyFull(sizes[..last], maxes[..last]);
    }
  }

  /** When a clause does not fit the last list that was begun, there is another one. */
  lemma Suffices(sizes: seq<nat>, maxes: seq<nat>, w: nat, n: nat, sum: nat)
    requires |sizes| == |maxes| && w < |sizes| && Enough(maxes, sum) && 0 < n < CLAUSE_LIMIT
    requires forall i :: 0 <= i < w ==> sizes[i] + CLAUSE_LIMIT > maxes[i]
    requires sizes[w] + n > maxes[w] && Sum(sizes) + n <= sum
    ensures w + 1 < |sizes|
  {
    SumOne(sizes);
    SumOne(maxes);
    Margin(maxes, sum);
    if w + 1 == |sizes| {
      NearlyFull(sizes, maxes);
    }
  }

  lemma SumOne(s: seq<nat>)
    ensures |s| == 1 ==> Sum(s) == s[0]
  {
    if |s| == 1 {
      assert s[..0] == [];
    }
  }

  /** More than one list is made only when the margin makes up for what all of them may waste. */
  lemma Margin(maxes: seq<nat>, sum: nat)
    requires Enough(maxes, sum)
    ensures |maxes| == 1 || Sum(maxes) >= sum + |maxes| * CLAUSE_LIMIT
  {
    assert |maxes| * CLAUSE_LIMIT <= 16 * CLAUSE_LIMIT;
  }

  lemma {:induction false} SumUpdate(s: seq<nat>, i: nat, x: nat)
    requires i < |s|
    ensures Sum(s[i := x]) == Sum(s) - s[i] + x
  {
    var last := |s| - 1;
    if i < last {
      SumUpdate(s[..last], i, x);
      assert s[i := x][..last] == s[..last][i := x];
    } else {
      assert s[i := x][..last] == s[..last];
    }
  }

  // ----- the two lists clauses are taken from -----

  /** Short clauses and the others, of those in `ps`. */
  ghost predicate Parted(mem0: seq<Word>, three: seq<nat>, others: seq<nat>, ps: seq<nat>) {
    && NoDup(three) && NoDup(others)
    && (forall p :: p in three <==> p in ps && Short(mem0, p))
    && (forall p :: p in others <==> p in ps && !Short(mem0, p))
    && |three| + |others| == |ps| && NeedTotal(mem0, three) + NeedTotal(mem0, others) == NeedTotal(mem0, ps)
  }

  predicate Short(mem: seq<Word>, p: nat) {
    p < |mem| && mem[p].Head? && mem[p].size <= 3
  }

  lemma PartedNone(mem0: seq<Word>, ps: seq<nat>)
    ensures Parted(mem0, [], [], ps[..0])
  {
  }

  lemma PartStep(mem0: seq<Word>, three: seq<nat>, others: seq<nat>, ps: seq<nat>, p: nat)
    requires Parted(mem0, three, others, ps) && p !in ps
    ensures Short(mem0, p) ==> Parted(mem0, three + [p], others, ps + [p])
    ensures !Short(mem0, p) ==> Parted(mem0, three, others + [p], ps + [p])
  {
    hide NeedTotal, NeedOf, Short;
    NeedAppend(mem0, ps, p);
    NeedAppend(mem0, three, p);
    NeedAppend(mem0, others, p);
  }

  lemma PointersApart(mem0: seq<Word>, live: seq<Block>)
    requires Movable(mem0, live)
    ensures NoDup(Pointers(live))
  {
    forall i, j | 0 <= i < j < |live| ensures live[i].p != live[j].p {
      assert Apart(live[i], live[j]) && live[i] in live && live[j] in live;
      assert ClauseAt(mem0, live[i]) && ClauseAt(mem0, live[j]);
    }
  }

  /** The state of the copying: the clauses in the two lists are still to move, the others have moved. */
  ghost predicate Midway(mem0: seq<Word>, mem: seq<Word>, news: seq<Stack>, live: seq<Block>, dest: map<nat, nat>,
      three: seq<nat>, others: seq<nat>, w: nat, maxes: seq<nat>, sum: nat) {
    && Moving(mem0, mem, news, live, dest) && Exactly(mem0, news, dest) && Movable(mem0, live)
    && ToMove(live, dest, three, others) && Room(mem0, news, w, maxes, sum, three, others)
  }

  ghost predicate ToMove(live: seq<Block>, dest: map<nat, nat>, three: seq<nat>, others: seq<nat>) {
    && NoDup(three) && NoDup(others) && (forall p :: p in three ==> p !in others)
    && (forall p :: p in three || p in others ==> p !in dest && IsLive(live, p))
    && (forall b :: b in live && b.p !in dest ==> b.p in three || b.p in others)
    && (forall p :: p in dest ==> IsLive(live, p))
  }

  ghost predicate IsLive(live: seq<Block>, p: nat) {
    exists b :: b in live && b.p == p
  }

  ghost predicate Room(
    mem0: seq<Word>, news: seq<Stack>, w: nat, maxes: seq<nat>, sum: nat, three: seq<nat>, others: seq<nat>)
  {
    && Enough(maxes, sum) && |news| == |maxes| && w < |news|
    && (forall i :: 0 <= i < |news| ==> news[i].max == maxes[i])
    && (forall i :: 0 <= i < w ==> news[i].size + CLAUSE_LIMIT > maxes[i])
    && (forall i :: w < i < |news| ==> news[i].size == 0)
    && Sum(Sizes(news)) + NeedTotal(mem0, three) + NeedTotal(mem0, others) <= sum
  }

  /** The stack for a clause of `n` words. */
  function Target(news: seq<Stack>, w: nat, n: nat): nat
    requires w < |news|
  {
    if news[w].size + n > news[w].max then w + 1 else w
  }

  /** The next clause fits the current list or the one after it, which exists. */
  lemma TargetFits(
      mem0: seq<Word>, news: seq<Stack>, w: nat, maxes: seq<nat>, sum: nat, three: seq<nat>, others: seq<nat>, n: nat)
    requires Room(mem0, news, w, maxes, sum, three, others) && 0 < n < CLAUSE_LIMIT
    requires n <= NeedTotal(mem0, three) + NeedTotal(mem0, others)
    ensures Target(news, w, n) < |news| && news[Target(news, w, n)].size + n <= news[Target(news, w, n)].max
    ensures forall i :: 0 <= i < Target(news, w, n) ==> news[i].size + CLAUSE_LIMIT > maxes[i]
  {
    hide NeedTotal, Sum;
    if news[w].size + n > news[w].max {
      Suffices(Sizes(news), maxes, w, n, sum);
    }
  }

  lemma NeedBound(mem0: seq<Word>, live: seq<Block>, p: nat)
    requires Movable(mem0, live) && IsLive(live, p)
    ensures 0 < NeedOf(mem0, p) < CLAUSE_LIMIT && p + NeedOf(mem0, p) <= |mem0|
  {
    var b :| b in live && b.p == p;
    assert ClauseAt(mem0, b);
  }

  lemma RoomStep(
      mem0: seq<Word>, news: seq<Stack>, w: nat, maxes: seq<nat>, sum: nat, three: seq<nat>, others: seq<nat>,
      three': seq<nat>, others': seq<nat>, n: nat)
    requires Room(mem0, news, w, maxes, sum, three, others) && 0 < n < CLAUSE_LIMIT
    requires NeedTotal(mem0, three) + NeedTotal(mem0, others) == NeedTotal(mem0, three') + NeedTotal(mem0, others') + n
    ensures Target(news, w, n) < |news|
    ensures var t := Target(news, w, n);
      Room(mem0, news[t := Bumped(news[t], n)], t, maxes, sum, three', others')
  {
    hide NeedTotal, Sum;
    TargetFits(mem0, news, w, maxes, sum, three, others, n);
    var t := Target(news, w, n);
    var news' := news[t := Bumped(news[t], n)];
    SumUpdate(Sizes(news), t, news[t].size + n);
    assert Sizes(news') == Sizes(news)[t := news[t].size + n];
  }

  lemma ToMoveStep(live: seq<Block>, dest: map<nat, nat>, three: seq<nat>, others: seq<nat>, p: nat, q: nat,
      three': seq<nat>, others': seq<nat>)
    requires ToMove(live, dest, three, others)
    requires (three == three' + [p] && others' == others) || (others == others' + [p] && three' == three)
    ensures ToMove(live, dest[p := q], three', others') && p !in dest && IsLive(live, p)
  {
    hide IsLive;
    if three == three' + [p] {
      LastOut(three', p);
    } else {
      LastOut(others', p);
    }
  }

  lemma LastOut(s: seq<nat>, p: nat)
    requires NoDup(s + [p])
    ensures NoDup(s) && p !in s && p in s + [p] && (forall x :: x in s ==> x in s + [p])
    ensures (forall x :: x in s + [p] ==> x in s || x == p)
  {
    var r := s + [p];
    forall i, j | 0 <= i < j < |s| ensures s[i] != s[j] {
      assert r[i] != r[j];
    }
    forall i | 0 <= i < |s| ensures s[i] != p {
      assert r[i] != r[|s|];
    }
  }

  /** One round of the copying loop. */
  lemma MidwayStep(mem0: seq<Word>, mem: seq<Word>, news: seq<Stack>, live: seq<Block>, dest: map<nat, nat>,
      three: seq<nat>, others: seq<nat>, w: nat, maxes: seq<nat>, sum: nat, p: nat, three': seq<nat>, others': seq<nat>)
    requires Midway(mem0, mem, news, live, dest, three, others, w, maxes, sum)
    requires (three == three' + [p] && others' == others) || (others == others' + [p] && three' == three)
    ensures |news| <= NUM_STACKS && w < |news| && Target(news, w, NeedOf(mem0, p)) < |news|
    ensures var n := NeedOf(mem0, p); var t := Target(news, w, n);
      && p + n <= |mem| && news[t].start + news[t].size + n <= |mem|
      && Midway(mem0, Step(mem0, mem, news, p, t), news[t := Bumped(news[t], n)], live,
        dest[p := news[t].start + news[t].size], three', others', t, maxes, sum)
  {
    hide Moving, Exactly, Movable, Room, Step, Bumped, IsLive, NeedTotal, NeedOf, Enough, Valid;
    RoomSize(mem0, news, w, maxes, sum, three, others);
    var n, t := NeedOf(mem0, p), Target(news, w, NeedOf(mem0, p));
    ToMoveStep(live, dest, three, others, p, 0, three', others');
    NeedBound(mem0, live, p);
    NeedAppend(mem0, three', p);
    NeedAppend(mem0, others', p);
    TargetFits(mem0, news, w, maxes, sum, three, others, n);
    ToMoveStep(live, dest, three, others, p, news[t].start + news[t].size, three', others');
    RoomStep(mem0, news, w, maxes, sum, three, others, three', others', n);
    OneTurn(mem0, mem, news, live, dest, p, t);
  }

  lemma RoomSize(
      mem0: seq<Word>, news: seq<Stack>, w: nat, maxes: seq<nat>, sum: nat, three: seq<nat>, others: seq<nat>)
    requires Room(mem0, news, w, maxes, sum, three, others)
    ensures w < |news| <= NUM_STACKS
  {
  }

  lemma OneTurn(
      mem0: seq<Word>, mem: seq<Word>, news: seq<Stack>, live: seq<Block>, dest: map<nat, nat>, p: nat, t: nat)
    requires Moving(mem0, mem, news, live, dest) && Exactly(mem0, news, dest) && Movable(mem0, live)
    requires IsLive(live, p) && p !in dest && t < |news| <= NUM_STACKS && news[t].size + NeedOf(mem0, p) <= news[t].max
    ensures p + NeedOf(mem0, p) <= |mem| && news[t].start + news[t].size + NeedOf(mem0, p) <= |mem|
    ensures var news', dest' := news[t := Bumped(news[t], NeedOf(mem0, p))], dest[p := news[t].start + news[t].size];
      Moving(mem0, Step(mem0, mem, news, p, t), news', live, dest') && Exactly(mem0, news', dest')
  {
    hide Moving, Exactly, Movable, Step, Bumped, NeedOf;
    var b :| b in live && b.p == p;
    StepMoves(mem0, mem, news, live, dest, b, t,
      news[t := Bumped(news[t], NeedOf(mem0, p))], dest[p := news[t].start + news[t].size]);
  }

  // ----- before the copying -----

  /** The first `t` blocks have been looked at; those of freed clauses say that they have no new place. */
  ghost predicate Collected(mem0: seq<Word>, mem1: seq<Word>, mem: seq<Word>, bs: seq<Block>, t: nat) {
    && mem0 <= mem1 && |mem| == |mem1| && (forall a :: |mem0| <= a < |mem1| ==> mem[a] == mem1[a])
    && (forall k :: 0 <= k < |bs| && (k >= t || !Freed(mem0, bs[k].p)) ==>
          SameAt(mem0, mem, bs[k].p, bs[k].p + bs[k].len))
    && (forall k :: 0 <= k < t && k < |bs| && Freed(mem0, bs[k].p) ==>
          bs[k].p < |mem| && mem[bs[k].p] == NewOffset(NO_OFFSET))
  }

  lemma CollectedStart(mem0: seq<Word>, mem1: seq<Word>, bs: seq<Block>)
    requires mem0 <= mem1 && forall b :: b in bs ==> ClauseAt(mem0, b)
    ensures Collected(mem0, mem1, mem1, bs, 0)
  {
    forall k | 0 <= k < |bs| ensures SameAt(mem0, mem1, bs[k].p, bs[k].p + bs[k].len) {
      assert bs[k] in bs;
      forall a | 0 <= a < |mem0| ensures mem1[a] == mem0[a] {
        assert mem1[..|mem0|][a] == mem1[a];
      }
    }
  }

  lemma LiveNext(mem0: seq<Word>, bs: seq<Block>, t: nat)
    requires t < |bs|
    ensures LiveBlocks(mem0, bs[..t + 1]) == LiveBlocks(mem0, bs[..t]) + if Freed(mem0, bs[t].p) then [] else [bs[t]]
  {
    assert bs[..t + 1][..t] == bs[..t];
  }

  lemma ApartAt(mem0: seq<Word>, bs: seq<Block>, t: nat)
    requires t < |bs| && AllApart(bs) && forall b :: b in bs ==> ClauseAt(mem0, b)
    ensures forall k :: 0 <= k < |bs| && k != t ==> Apart(bs[k], bs[t]) && bs[k].len > 0
    ensures ClauseAt(mem0, bs[t])
  {
    assert bs[t] in bs;
    forall k | 0 <= k < |bs| && k != t ensures Apart(bs[k], bs[t]) && bs[k].len > 0 {
      assert bs[k] in bs && ClauseAt(mem0, bs[k]);
      assert if k < t then Apart(bs[k], bs[t]) else Apart(bs[t], bs[k]);
    }
  }

  lemma CollectStep(mem0: seq<Word>, mem1: seq<Word>, mem: seq<Word>, bs: seq<Block>, t: nat)
    requires Collected(mem0, mem1, mem, bs, t) && t < |bs| && ClauseAt(mem0, bs[t])
    requires forall k :: 0 <= k < |bs| && k != t ==> Apart(bs[k], bs[t]) && bs[k].len > 0
    ensures bs[t].p < |mem0| <= |mem| && mem[bs[t].p] == mem0[bs[t].p] && mem0[bs[t].p].Head?
    ensures !Freed(mem0, bs[t].p) ==> Collected(mem0, mem1, mem, bs, t + 1)
    ensures Freed(mem0, bs[t].p) ==> Collected(mem0, mem1, mem[bs[t].p := NewOffset(NO_OFFSET)], bs, t + 1)
  {
  }

  lemma SumNone(s: seq<nat>)
    ensures Sum(s[..0]) == 0
  {
  }

  lemma CollectReady(mem0: seq<Word>, mem1: seq<Word>, stacks: seq<Stack>)
    requires Valid(mem0, stacks) && mem0 <= mem1
    ensures AllApart(All(stacks)) && (forall b :: b in All(stacks) ==> ClauseAt(mem0, b)) && |All(stacks[..0])| == 0
    ensures Collected(mem0, mem1, mem1, All(stacks), 0) && Pointers(LiveBlocks(mem0, All(stacks)[..0])) == []
  {
    NoOverlap(mem0, stacks);
    EstimateExact(mem0, stacks);
    hide All, AllApart, ClauseAt;
    CollectedStart(mem0, mem1, All(stacks));
    NoneLive(mem0, All(stacks));
    assert stacks[..0] == [];
    NoStacks(mem0);
  }

  /** The block after the blocks of `i` whole stacks and `k` more. */
  lemma {:induction false} AllAt(stacks: seq<Stack>, i: nat, k: nat)
    requires i < |stacks| && k < |stacks[i].orig|
    ensures |All(stacks[..i])| + k < |All(stacks)|
    ensures All(stacks)[|All(stacks[..i])| + k] == Block(stacks[i].start + Sum(stacks[i].orig[..k]), stacks[i].orig[k])
  {
    var last := |stacks| - 1;
    if i < last {
      AllAt(stacks[..last], i, k);
      assert stacks[..last][..i] == stacks[..i];
    } else {
      BlocksAt(stacks[last].start, stacks[last].orig, k);
    }
  }

  lemma {:induction false} BlocksAt(start: nat, orig: seq<nat>, k: nat)
    requires k < |orig|
    ensures Blocks(start, orig)[k] == Block(start + Sum(orig[..k]), orig[k])
  {
    var last := |orig| - 1;
    if k < last {
      BlocksAt(start, orig[..last], k);
      assert orig[..last][..k] == orig[..k];
    }
  }

  lemma AllStep(stacks: seq<Stack>, i: nat)
    requires i < |stacks|
    ensures |All(stacks[..i + 1])| == |All(stacks[..i])| + |stacks[i].orig|
  {
    assert stacks[..i + 1][..i] == stacks[..i];
  }

  lemma SumStep(s: seq<nat>, k: nat)
    requires k < |s|
    ensures Sum(s[..k + 1]) == Sum(s[..k]) + s[k]
  {
    assert s[..k + 1][..k] == s[..k];
  }

  lemma {:induction false} AllWithin(stacks: seq<Stack>, i: nat)
    requires i <= |stacks|
    ensures |All(stacks[..i])| <= |All(stacks)|
  {
    var last := |stacks| - 1;
    if i == |stacks| {
      assert stacks[..i] == stacks;
    } else {
      AllWithin(stacks[..last], i);
      assert stacks[..last][..i] == stacks[..i];
    }
  }

  lemma NoStacks(mem: seq<Word>)
    ensures Valid(mem, []) && All([]) == []
  {
  }

  lemma NoneLive(mem0: seq<Word>, bs: seq<Block>)
    ensures LiveBlocks(mem0, bs[..0]) == []
  {
  }

  lemma PointersAppend(bs: seq<Block>, b: Block)
    ensures Pointers(bs + [b]) == Pointers(bs) + [b.p]
  {
  }

  /** Everything is ready to copy. */
  lemma ReadyToMove(
      mem0: seq<Word>, mem1: seq<Word>, mem: seq<Word>, stacks: seq<Stack>, news: seq<Stack>, live: seq<Block>)
    requires Valid(mem0, stacks) && Collected(mem0, mem1, mem, All(stacks), |All(stacks)|)
    requires live == LiveBlocks(mem0, All(stacks))
    requires Valid(mem1, news) && All(news) == [] && forall i :: 0 <= i < |news| ==> news[i].start >= |mem0|
    ensures Moving(mem0, mem, news, live, map[]) && Exactly(mem0, news, map[]) && Movable(mem0, live)
  {
    var bs := All(stacks);
    LiveMembers(mem0, bs);
    NoOverlap(mem0, stacks);
    EstimateExact(mem0, stacks);
    hide Valid, StackOk, All, AllApart;
    ValidAbove(mem1, mem, news, |mem0|);
    forall b | b in live ensures SameAt(mem0, mem, b.p, b.p + b.len) {
      var k :| 0 <= k < |bs| && bs[k] == b;
    }
  }

  lemma {:induction false} SumZeros(s: seq<nat>)
    requires forall i :: 0 <= i < |s| ==> s[i] == 0
    ensures Sum(s) == 0
  {
    if s != [] {
      SumZeros(s[..|s| - 1]);
    }
  }

  /** The new stacks are empty and have room for all. */
  lemma RoomAtFirst(
      mem0: seq<Word>, stacks: seq<Stack>, news: seq<Stack>, maxes: seq<nat>, sum: nat, three: seq<nat>,
      others: seq<nat>)
    requires Valid(mem0, stacks) && sum == UsedTotal(stacks) && Enough(maxes, sum) && |news| == |maxes|
    requires forall i :: 0 <= i < |news| ==> news[i].max == maxes[i] && news[i].size == 0
    requires Parted(mem0, three, others, Pointers(LiveBlocks(mem0, All(stacks))))
    ensures Room(mem0, news, 0, maxes, sum, three, others)
  {
    EstimateExact(mem0, stacks);
    NeedWithinLive(mem0, All(stacks));
    SumZeros(Sizes(news));
  }

  lemma AllToMove(mem0: seq<Word>, live: seq<Block>, three: seq<nat>, others: seq<nat>)
    requires Movable(mem0, live) && Parted(mem0, three, others, Pointers(live))
    ensures ToMove(live, map[], three, others)
  {
    hide NeedTotal, Movable, Short;
    forall p ensures p in Pointers(live) <==> IsLive(live, p) {
      if p in Pointers(live) {
        var i :| 0 <= i < |live| && Pointers(live)[i] == p;
        assert live[i] in live;
      }
      if IsLive(live, p) {
        var b :| b in live && b.p == p;
        var i :| 0 <= i < |live| && live[i] == b;
        assert Pointers(live)[i] == p;
      }
    }
  }

  lemma SizeAt(mem0: seq<Word>, mem: seq<Word>, live: seq<Block>, i: nat)
    requires i < |live| && Movable(mem0, live) && forall b :: b in live ==> SameAt(mem0, mem, b.p, b.p + b.len)
    ensures live[i].p < |mem| && mem[live[i].p].Head? && (mem[live[i].p].size <= 3 <==> Short(mem0, live[i].p))
  {
    assert live[i] in live;
    assert ClauseAt(mem0, live[i]);
  }

  lemma PrefixWithout(s: seq<nat>, i: nat)
    requires NoDup(s) && i < |s|
    ensures s[i] !in s[..i]
  {
  }

  /** The next clause is still as it was. */
  lemma SizeStill(mem0: seq<Word>, mem: seq<Word>, news: seq<Stack>, live: seq<Block>, dest: map<nat, nat>,
      three: seq<nat>, others: seq<nat>, w: nat, maxes: seq<nat>, sum: nat, p: nat)
    requires Midway(mem0, mem, news, live, dest, three, others, w, maxes, sum) && (p in three || p in others)
    ensures p < |mem| && mem[p].Head? && NeedOf(mem0, p) == Max(HEADER + mem[p].size, HEADER + 2)
    ensures w < |news| <= NUM_STACKS
  {
    hide Exactly, Valid, All;
    assert IsLive(live, p);
    var b :| b in live && b.p == p;
    assert ClauseAt(mem0, b);
    assert SameAt(mem0, mem, b.p, b.p + b.len);
  }

  // ----- afterwards -----

  /** What consolidation has done to the clauses that were at the keys of `dest`. */
  ghost predicate Consolidated(
    mem0: seq<Word>, stacks0: seq<Stack>, mem: seq<Word>, stacks: seq<Stack>, dest: map<nat, nat>)
  {
    && Valid(mem, stacks) && Exactly(mem0, stacks, dest)
    && (forall p :: p in dest <==> LiveAt(mem0, stacks0, p))
    && (forall p :: p in dest ==> Copied(mem0, p, mem, dest[p], NeedOf(mem0, p)) && Entry(mem, stacks, p, dest[p]))
  }

  /** There is a clause at `p` that is not freed. */
  ghost predicate LiveAt(mem: seq<Word>, stacks: seq<Stack>, p: nat) {
    exists b :: b in All(stacks) && b.p == p && !Freed(mem, p)
  }

  /** The forwarding entry at `p` for the new place `q`. */
  predicate Entry(mem: seq<Word>, stacks: seq<Stack>, p: nat, q: nat) {
    && p + 2 < |mem| && mem[p].NewOffset? && mem[p + 2] == NewPointer(q)
    && mem[p].o % NUM_STACKS < |stacks| && PointerOf(stacks, mem[p].o) == q
  }

  lemma AllMoved(
      mem0: seq<Word>, stacks0: seq<Stack>, mem: seq<Word>, news: seq<Stack>, live: seq<Block>, dest: map<nat, nat>,
      w: nat, maxes: seq<nat>, sum: nat)
    requires live == LiveBlocks(mem0, All(stacks0)) && Midway(mem0, mem, news, live, dest, [], [], w, maxes, sum)
    ensures Consolidated(mem0, stacks0, mem, news, dest)
  {
    hide Room, Valid, Exactly, All, AllApart, Forwarded, Copied, Entry, LiveAt, Movable, IsLive, NeedOf;
    LiveKeys(mem0, stacks0, live, dest);
    forall p | p in dest
      ensures Copied(mem0, p, mem, dest[p], NeedOf(mem0, p)) && Entry(mem, news, p, dest[p])
    {
      EntryOf(mem0, mem, news, live, dest, p);
    }
  }

  lemma LiveKeys(mem0: seq<Word>, stacks0: seq<Stack>, live: seq<Block>, dest: map<nat, nat>)
    requires live == LiveBlocks(mem0, All(stacks0)) && ToMove(live, dest, [], [])
    ensures forall p :: p in dest <==> LiveAt(mem0, stacks0, p)
  {
    hide AllApart, All;
    LiveMembers(mem0, All(stacks0));
    forall p ensures p in dest <==> LiveAt(mem0, stacks0, p) {
      if LiveAt(mem0, stacks0, p) {
        var b :| b in All(stacks0) && b.p == p && !Freed(mem0, p);
        assert b in live;
      }
      if p in dest {
        assert IsLive(live, p);
        var b :| b in live && b.p == p;
      }
    }
  }

  lemma EntryOf(mem0: seq<Word>, mem: seq<Word>, news: seq<Stack>, live: seq<Block>, dest: map<nat, nat>, p: nat)
    requires Moving(mem0, mem, news, live, dest) && p in dest && IsLive(live, p)
    ensures Copied(mem0, p, mem, dest[p], NeedOf(mem0, p)) && Entry(mem, news, p, dest[p])
  {
    hide Valid, All, NeedOf, Copied;
    var b :| b in live && b.p == p;
    assert Forwarded(mem0, mem, news, b, dest[b.p]);
  }

  /** Seven tenths of what is taken are in use, and few stacks are there. */
  predicate InUse(stacks: seq<Stack>) {
    SizeTotal(stacks) > 0 && 10 * UsedTotal(stacks) > 7 * SizeTotal(stacks) && |stacks| < 10
  }

  /** The same told from the clauses: alive are more than seven tenths of the words taken, but for what is lost. */
  ghost predicate MostlyAlive(mem: seq<Word>, stacks: seq<Stack>) {
    10 * (Live(mem, All(stacks)) + Lost(mem, All(stacks))) > 7 * SizeTotal(stacks) && |stacks| < 10
  }

  /** As long as no clause is shrunk, the test is one of the words alive alone. */
  lemma UnshrunkAlive(mem: seq<Word>, stacks: seq<Stack>)
    requires Valid(mem, stacks) && Unshrunk(mem, All(stacks))
    ensures InUse(stacks) <==> 10 * Live(mem, All(stacks)) > 7 * SizeTotal(stacks) && |stacks| < 10
  {
    InUseAlive(mem, stacks);
    UnshrunkExact(mem, stacks);
    AllClauses(mem, stacks);
  }

  lemma InUseAlive(mem: seq<Word>, stacks: seq<Stack>)
    requires Valid(mem, stacks)
    ensures InUse(stacks) <==> MostlyAlive(mem, stacks)
  {
    AllClauses(mem, stacks);
    if SizeTotal(stacks) == 0 {
      UsedWithinSize(mem, stacks);
    }
  }

  lemma {:induction false} UsedWithinSize(mem: seq<Word>, stacks: seq<Stack>)
    requires forall i :: 0 <= i < |stacks| ==> StackOk(mem, stacks[i])
    ensures UsedTotal(stacks) <= SizeTotal(stacks)
  {
    if stacks != [] {
      var st := stacks[|stacks| - 1];
      assert StackOk(mem, st);
      UsedWithinSize(mem, stacks[..|stacks| - 1]);
      WithinSum(mem, st.start, st.orig);
    }
  }

  lemma {:induction false} WithinSum(mem: seq<Word>, start: nat, orig: seq<nat>)
    ensures Live(mem, Blocks(start, orig)) + Lost(mem, Blocks(start, orig)) <= Sum(orig)
  {
    if orig != [] {
      var last := |orig| - 1;
      WithinSum(mem, start, orig[..last]);
      assert orig == orig[..last] + [orig[last]];
      BlocksGrow(mem, start, orig[..last], orig[last]);
    }
  }

  lemma UsedNat(mem: seq<Word>, stacks: seq<Stack>)
    requires Valid(mem, stacks)
    ensures UsedTotal(stacks) >= 0
  {
    EstimateExact(mem, stacks);
  }

  /** The clauses that were moved take their whole blocks but for the shortest: nothing is lost in them. */
  lemma NothingLost(mem0: seq<Word>, stacks0: seq<Stack>, mem: seq<Word>, stacks: seq<Stack>, dest: map<nat, nat>)
    requires Valid(mem0, stacks0) && Consolidated(mem0, stacks0, mem, stacks, dest)
    ensures UsedTotal(stacks) == Live(mem, All(stacks)) && Lost(mem, All(stacks)) == 0
    ensures Unshrunk(mem0, All(stacks0)) ==> Unshrunk(mem, All(stacks))
  {
    hide Valid, All, Live, Copied, NeedOf, Entry, LiveAt, Waste;
    AllClauses(mem0, stacks0);
    AllClauses(mem, stacks);
    forall nb | nb in All(stacks)
      ensures Waste(mem, nb) == 0 && (Unshrunk(mem0, All(stacks0)) ==> Whole(mem, nb))
    {
      var p :| Lands(mem0, dest, p, nb);
      MovedBlock(mem0, stacks0, mem, p, nb);
    }
    NothingWasted(mem, All(stacks));
  }

  /** The clause at `p`, moved to `nb`. */
  lemma MovedBlock(mem0: seq<Word>, stacks0: seq<Stack>, mem: seq<Word>, p: nat, nb: Block)
    requires LiveAt(mem0, stacks0, p) && Copied(mem0, p, mem, nb.p, nb.len) && nb.len == NeedOf(mem0, p)
    requires forall b :: b in All(stacks0) ==> ClauseAt(mem0, b)
    ensures Waste(mem, nb) == 0 && (Unshrunk(mem0, All(stacks0)) ==> Whole(mem, nb))
  {
    hide All;
    var b :| b in All(stacks0) && b.p == p && !Freed(mem0, p);
    assert ClauseAt(mem0, b) && (Unshrunk(mem0, All(stacks0)) ==> Whole(mem0, b));
    assert mem[nb.p] == mem[nb.p..nb.p + nb.len][0] == mem0[p..p + nb.len][0] == mem0[p];
  }

  /** Looked up in the old stacks, the offset leads to an entry for the new place. */
  ghost predicate OffsetOk(mem: seq<Word>, stacks: seq<Stack>, news: seq<Stack>, dest: map<nat, nat>, o: nat) {
    && o % NUM_STACKS < |stacks| && PointerOf(stacks, o) in dest
    && Entry(mem, news, PointerOf(stacks, o), dest[PointerOf(stacks, o)])
  }

  /** The new offset is that of the place the old one's clause has moved to. */
  ghost predicate Relocated(stacks0: seq<Stack>, stacks: seq<Stack>, dest: map<nat, nat>, o: nat, o': nat) {
    && o % NUM_STACKS < |stacks0| && o' % NUM_STACKS < |stacks| && PointerOf(stacks0, o) in dest
    && PointerOf(stacks, o') == dest[PointerOf(stacks0, o)]
  }

  lemma EntriesOf(mem0: seq<Word>, stacks0: seq<Stack>, mem: seq<Word>, stacks: seq<Stack>, dest: map<nat, nat>)
    requires Consolidated(mem0, stacks0, mem, stacks, dest)
    ensures forall p :: LiveAt(mem0, stacks0, p) ==> p in dest && Entry(mem, stacks, p, dest[p])
  {
    hide LiveAt, Entry, Valid, Exactly, Copied;
  }

  lemma SizesFine(maxes: seq<nat>, sum: nat)
    requires Enough(maxes, sum)
    ensures 1 <= |maxes| <= NUM_STACKS && forall k :: 0 <= k < |maxes| ==> maxes[k] <= MAXSIZE
  {
  }

  lemma Untouched(mem0: seq<Word>, mem: seq<Word>, news: seq<Stack>, live: seq<Block>)
    requires Moving(mem0, mem, news, live, map[])
    ensures forall b :: b in live ==> SameAt(mem0, mem, b.p, b.p + b.len)
  {
  }

  lemma AtStart(
      mem0: seq<Word>, mem: seq<Word>, news: seq<Stack>, live: seq<Block>, three: seq<nat>, others: seq<nat>,
      maxes: seq<nat>, sum: nat)
    requires Moving(mem0, mem, news, live, map[]) && Exactly(mem0, news, map[]) && Movable(mem0, live)
    requires ToMove(live, map[], three, others) && Room(mem0, news, 0, maxes, sum, three, others)
    ensures Midway(mem0, mem, news, live, map[], three, others, 0, maxes, sum)
  {
  }

  lemma PartedCount(mem0: seq<Word>, three: seq<nat>, others: seq<nat>, ps: seq<nat>)
    requires Parted(mem0, three, others, ps)
    ensures |three| + |others| == |ps|
  {
  }

  lemma {:induction false} SumAtMost(s: seq<nat>, m: nat)
    requires forall i :: 0 <= i < |s| ==> s[i] <= m
    ensures Sum(s) <= |s| * m
  {
    if s != [] {
      SumAtMost(s[..|s| - 1], m);
    }
  }
}
