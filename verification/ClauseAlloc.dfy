/**
 cmsat's `ClauseAllocator`: the search for room, new clauses, offsets and pointers, and
 freeing.  Freed clauses stay where they are until `consolidate` copies the others into
 new stacks, leaving at each old place the new offset and pointer for those who still
 hold the old ones.
 */
module ClauseAlloc {
  import opened Rewriting
  import opened ClauseStacks
  import opened Consolidation
  import opened Cnf

  class ClauseAllocator {
    var mem: seq<Word>
    var stacks: seq<Stack>
    var otherClauses: seq<nat>
    var threeLongClauses: seq<nat>

    constructor ()
      ensures Valid(mem, stacks) && All(stacks) == []
    {
      mem, stacks := [], [];
      otherClauses, threeLongClauses := [], [];
    }

    /** `malloc`. */
    method Malloc(n: nat) returns (p: nat)
      modifies this`mem
      ensures p == |old(mem)| && |mem| == p + n && mem[..p] == old(mem)
    {
      p := |mem|;
      mem := mem + seq(n, _ => Junk);
    }

    /**
     The search of `allocEnough` for a stack with room, or a new stack at the end.  It
     fails only if there are sixteen stacks without room.
     */
    method FindStack(needed: nat) returns (which: Option<nat>)
      requires Valid(mem, stacks) && needed < HEADER + SIZE_LIMIT
      modifies this
      ensures Valid(mem, stacks) && old(mem) <= mem && All(stacks) == All(old(stacks))
      ensures which.Some? ==> which.value < |stacks| && stacks[which.value].size + needed < stacks[which.value].max
      ensures which.Some? ==> forall i :: 0 <= i < which.value ==> stacks[i].size + needed >= stacks[i].max
      ensures which.None? <==> |old(stacks)| == NUM_STACKS && forall i :: 0 <= i < NUM_STACKS ==>
        old(stacks)[i].size + needed >= old(stacks)[i].max
      ensures which.None? ==> stacks == old(stacks) && mem == old(mem)
      ensures UsedTotal(stacks) == UsedTotal(old(stacks)) && SizeTotal(stacks) == SizeTotal(old(stacks))
    {
      hide Valid, All, UsedTotal, SizeTotal;
      FewStacks(mem, stacks);
      which := None;
      var i := 0;
      while i < |stacks|
        invariant 0 <= i <= |stacks| && forall k :: 0 <= k < i ==> stacks[k].size + needed >= stacks[k].max
      {
        if stacks[i].size + needed < stacks[i].max {
          return Some(i);
        }
        i := i + 1;
      }
      if |stacks| == NUM_STACKS {
        return None;
      }
      PushStack(needed);
      which := Some(|stacks| - 1);
    }

    /** A new stack, at most eight times the size of the last one. */
    method PushStack(ghost needed: nat)
      requires Valid(mem, stacks) && |stacks| < NUM_STACKS && needed < HEADER + SIZE_LIMIT
      modifies this
      ensures Valid(mem, stacks) && old(mem) <= mem && All(stacks) == All(old(stacks))
      ensures |stacks| == |old(stacks)| + 1 && stacks[..|old(stacks)|] == old(stacks)
      ensures stacks[|old(stacks)|].size == 0 && needed < stacks[|old(stacks)|].max == NextMax(old(stacks))
      ensures UsedTotal(stacks) == UsedTotal(old(stacks)) && SizeTotal(stacks) == SizeTotal(old(stacks))
    {
      var nextSize := MIN_LIST_SIZE;
      if |stacks| != 0 {
        nextSize := Min(stacks[|stacks| - 1].max * ALLOC_GROW_MULT, MAXSIZE);
        nextSize := Max(nextSize, MIN_LIST_SIZE * 2);
      }
      hide Valid, All;
      var start := Malloc(nextSize);
      NewStack(old(mem), mem, stacks, start, nextSize);
      TotalsSnoc(stacks, Stack(start, nextSize, 0, [], 0));
      stacks := stacks + [Stack(start, nextSize, 0, [], 0)];
    }

    /**
     `Clause_new`: the memory from `allocEnough` with the clause in it.  The words taken, the words
     alive and the estimates all grow by the words of the clause.
     */
    method ClauseNew(ps: seq<nat>, flags: nat, abst: nat) returns (r: Option<nat>)
      requires Valid(mem, stacks) && 2 < |ps| < SIZE_LIMIT
      modifies this
      ensures Valid(mem, stacks) && |old(mem)| <= |mem|
      ensures r.None? <==> |old(stacks)| == NUM_STACKS && forall i :: 0 <= i < NUM_STACKS ==>
        old(stacks)[i].size + HEADER + |ps| >= old(stacks)[i].max
      ensures r.Some? ==> ClauseIs(mem, r.value, ps, flags)
      ensures r.Some? ==> OneMore(All(old(stacks)), All(stacks), Block(r.value, HEADER + |ps|))
      ensures forall b :: b in All(old(stacks)) ==> SameAt(old(mem), mem, b.p, b.p + b.len)
      ensures r.None? ==> stacks == old(stacks) && mem == old(mem)
      ensures r.Some? ==> Adds(old(mem), old(stacks), mem, stacks, HEADER + |ps|)
      ensures Unshrunk(old(mem), All(old(stacks))) ==> Unshrunk(mem, All(stacks))
    {
      hide Valid, All, ClauseIs, OnlyBeyond, OneMore, Unshrunk, Adds;
      ghost var mem0, stacks0 := mem, stacks;
      BlocksBelow(mem0, stacks0);
      var needed := HEADER + |ps|;
      var which := FindStack(needed);
      if which.None? {
        return None;
      }
      ghost var mem1, stacks1 := mem, stacks;
      var p := PutClause(which.value, ps, flags, abst);
      OldBlocksStay(mem1, stacks1, which.value, mem);
      SamePrefix(mem0, mem1, mem, All(stacks0));
      AddsAfter(mem0, stacks0, mem1, stacks1, mem, stacks, needed);
      if Unshrunk(mem0, All(stacks0)) {
        UnshrunkGrows(mem0, mem, All(stacks0), All(stacks), p, ps, flags);
      }
      r := Some(p);
    }

    /** The end of `allocEnough` and the constructor of the clause. */
    method PutClause(w: nat, ps: seq<nat>, flags: nat, abst: nat) returns (p: nat)
      requires Valid(mem, stacks) && w < |stacks| && 2 < |ps| < SIZE_LIMIT
      requires stacks[w].size + HEADER + |ps| < stacks[w].max
      modifies this
      ensures Valid(mem, stacks) && ClauseIs(mem, p, ps, flags) && |mem| == |old(mem)|
      ensures OneMore(All(old(stacks)), All(stacks), Block(p, HEADER + |ps|))
      ensures OnlyBeyond(old(mem), mem, old(stacks)[w])
      ensures Adds(old(mem), old(stacks), mem, stacks, HEADER + |ps|)
    {
      hide *;
      var st := stacks[w];
      p := st.start + st.size;
      Putting(mem, stacks, w, ps, flags, abst);
      PutAdds(mem, stacks, w, ps, flags, abst);
      stacks := stacks[w := Bumped(st, HEADER + |ps|)];
      mem := Written(mem, p, ClauseWords(ps, flags, abst));
    }

    /** A clause may lose literals while it stays in its block. */
    method Shrink(p: nat, i: nat)
      requires Valid(mem, stacks) && IsClause(mem, stacks, p) && i <= mem[p].size
      modifies this`mem
      ensures Valid(mem, stacks) && IsClause(mem, stacks, p)
      ensures mem == old(mem)[p := old(mem)[p].(size := old(mem)[p].size - i)]
    {
      hide Valid, StackOk, All;
      ShrinkOk(mem, stacks, p, mem[p].size - i);
      mem := mem[p := mem[p].(size := mem[p].size - i)];
    }

    /** `getOuterOffset`: the first stack whose memory has the pointer in it. */
    method GetOuterOffset(p: nat) returns (outer: nat)
      requires exists i :: 0 <= i < |stacks| && InStack(stacks[i], p)
      ensures outer < |stacks| && InStack(stacks[outer], p) && forall i :: 0 <= i < outer ==> !InStack(stacks[i], p)
    {
      outer := 0;
      while !(p >= stacks[outer].start && p < stacks[outer].start + stacks[outer].max)
        invariant outer < |stacks| && forall i :: 0 <= i < outer ==> !InStack(stacks[i], p)
        decreases |stacks| - outer
      {
        outer := outer + 1;
      }
    }

    /** `getOffset`: looking the offset up gives the pointer back. */
    method GetOffset(p: nat) returns (o: nat)
      requires Valid(mem, stacks) && exists i :: 0 <= i < |stacks| && InStack(stacks[i], p)
      ensures o % NUM_STACKS < |stacks| && PointerOf(stacks, o) == p && o < 0x4000_0000
    {
      var outer := GetOuterOffset(p);
      assert StackOk(mem, stacks[outer]);
      o := Combine(outer, p - stacks[outer].start);
    }

    /**
     `clauseFree`: the words alive drop by the clause's whole block, the estimates by the words the
     clause needs now, which is less if it was shrunk.
     */
    method ClauseFree(p: nat)
      requires Valid(mem, stacks) && p < |mem| && mem[p].Head? && IsClause(mem, stacks, p)
      modifies this
      ensures Valid(mem, stacks) && mem == old(mem)[p := old(mem)[p].(freed := true)] && All(stacks) == All(old(stacks))
      ensures UsedTotal(stacks) == UsedTotal(old(stacks)) - (HEADER + old(mem)[p].size)
      ensures SizeTotal(stacks) == SizeTotal(old(stacks))
      ensures forall b :: b in All(stacks) && b.p == p ==> Frees(old(mem), mem, All(stacks), b)
      ensures Unshrunk(old(mem), All(stacks)) ==> Unshrunk(mem, All(stacks))
    {
      ghost var mem0 := mem;
      hide Valid, All, StackOk, Live, Lost, Unshrunk, UsedTotal, SizeTotal;
      ghost var i := HasStack(mem, stacks, p);
      mem := mem[p := mem[p].(freed := true)];
      assert InStack(stacks[i], p);
      var outer := GetOuterOffset(p);
      FreeOk(mem0, stacks, p, outer);
      ghost var b0 :| b0 in All(stacks) && b0.p == p;
      forall b | b in All(stacks) && b.p == p
        ensures Freeing(mem0, stacks, outer, b)
      {
        FreeTotals(mem0, stacks, outer, b);
      }
      assert Freeing(mem0, stacks, outer, b0);
      stacks := stacks[outer := stacks[outer].(used := stacks[outer].used - (HEADER + mem[p].size))];
    }

    /** The sizes of the new lists; fails if sixteen are not enough. */
    method NewMaxSizes(sum: nat) returns (maxes: seq<nat>, ok: bool)
      ensures ok ==> Enough(maxes, sum)
      ensures Sized(maxes, sum)
      ensures ok <==> NeedSize(sum) <= NUM_STACKS * MAXSIZE
    {
      maxes := [];
      var need: int := NeedSize(sum);
      while |maxes| < NUM_STACKS
        invariant |maxes| <= NUM_STACKS && need + Sum(maxes) == NeedSize(sum)
        invariant forall k :: 0 <= k < |maxes| ==> MIN_LIST_SIZE <= maxes[k] <= MAXSIZE
        invariant |maxes| == 0 || |maxes| == 1 || NeedSize(sum) > MAXSIZE
        invariant need > 0 ==> Sum(maxes) == |maxes| * MAXSIZE
        invariant |maxes| == 0 ==> need > 0
        invariant Sized(maxes, sum)
      {
        if need <= 0 {
          break;
        }
        var thisMaxSize := Min(need, MAXSIZE);
        if |maxes| == 0 {
          thisMaxSize := Max(thisMaxSize, MIN_LIST_SIZE);
        } else {
          thisMaxSize := Max(thisMaxSize, maxes[|maxes| - 1] / 2);
          thisMaxSize := Max(thisMaxSize, MIN_LIST_SIZE * 2);
        }
        need := need - thisMaxSize;
        assert thisMaxSize <= MAXSIZE;
        assert (maxes + [thisMaxSize])[..|maxes|] == maxes;
        SizedSnoc(maxes, sum, thisMaxSize);
        maxes := maxes + [thisMaxSize];
      }
      SumAtMost(maxes, MAXSIZE);
      ok := need <= 0;
    }

    /** The memory of the new lists. */
    method AllocLists(maxes: seq<nat>) returns (news: seq<Stack>)
      requires |maxes| <= NUM_STACKS && forall k :: 0 <= k < |maxes| ==> maxes[k] <= MAXSIZE
      modifies this`mem
      ensures old(mem) <= mem && Valid(mem, news) && All(news) == [] && |news| == |maxes|
      ensures forall k :: 0 <= k < |news| ==>
        news[k].max == maxes[k] && news[k].size == 0 && news[k].start >= |old(mem)|
    {
      news := [];
      hide Valid;
      NoStacks(mem);
      for i := 0 to |maxes|
        invariant old(mem) <= mem && Valid(mem, news) && All(news) == [] && |news| == i
        invariant forall k :: 0 <= k < i ==> news[k].max == maxes[k] && news[k].size == 0 && news[k].start >= |old(mem)|
      {
        ghost var mem0 := mem;
        var p := Malloc(maxes[i]);
        NewStack(mem0, mem, news, p, maxes[i]);
        news := news + [Stack(p, maxes[i], 0, [], 0)];
      }
    }

    /** One block: its clause is collected, or it gets an entry without a new place. */
    method CollectOne(
        p: nat, clauses0: seq<nat>, ghost mem0: seq<Word>, ghost mem1: seq<Word>, ghost bs: seq<Block>, ghost t: nat)
      returns (clauses: seq<nat>)
      requires t < |bs| && bs[t].p == p && Collected(mem0, mem1, mem, bs, t) && AllApart(bs)
      requires (forall b :: b in bs ==> ClauseAt(mem0, b)) && clauses0 == Pointers(LiveBlocks(mem0, bs[..t]))
      modifies this`mem
      ensures Collected(mem0, mem1, mem, bs, t + 1) && clauses == Pointers(LiveBlocks(mem0, bs[..t + 1]))
    {
      hide Collected, LiveBlocks, AllApart;
      ApartAt(mem0, bs, t);
      CollectStep(mem0, mem1, mem, bs, t);
      LiveNext(mem0, bs, t);
      clauses := clauses0;
      if !mem[p].freed {
        PointersAppend(LiveBlocks(mem0, bs[..t]), bs[t]);
        clauses := clauses + [p];
      } else {
        assert LiveBlocks(mem0, bs[..t]) + [] == LiveBlocks(mem0, bs[..t]);
        mem := mem[p := NewOffset(NO_OFFSET)];
      }
    }

    /** The blocks of one stack. */
    method CollectStack(
        i: nat, clauses0: seq<nat>, ghost mem0: seq<Word>, ghost mem1: seq<Word>, ghost bs: seq<Block>, ghost t0: nat)
      returns (clauses: seq<nat>)
      requires i < |stacks| && bs == All(stacks) && t0 == |All(stacks[..i])| && t0 + |stacks[i].orig| <= |bs|
      requires Collected(mem0, mem1, mem, bs, t0) && AllApart(bs)
      requires (forall b :: b in bs ==> ClauseAt(mem0, b)) && clauses0 == Pointers(LiveBlocks(mem0, bs[..t0]))
      modifies this`mem
      ensures Collected(mem0, mem1, mem, bs, t0 + |stacks[i].orig|)
      ensures clauses == Pointers(LiveBlocks(mem0, bs[..t0 + |stacks[i].orig|]))
    {
      hide All, Collected, LiveBlocks, AllApart, Blocks, ClauseAt, Sum, Pointers;
      clauses := clauses0;
      var currentLoc: nat := 0;
      SumNone(stacks[i].orig);
      for k := 0 to |stacks[i].orig|
        invariant Collected(mem0, mem1, mem, bs, t0 + k) && currentLoc == Sum(stacks[i].orig[..k])
        invariant clauses == Pointers(LiveBlocks(mem0, bs[..t0 + k]))
      {
        AllAt(stacks, i, k);
        clauses := CollectOne(stacks[i].start + currentLoc, clauses, mem0, mem1, bs, t0 + k);
        SumStep(stacks[i].orig, k);
        currentLoc := currentLoc + stacks[i].orig[k];
      }
    }

    /** The clauses that are not freed, in the order of the stacks; the others get an entry without a new place. */
    method CollectClauses(ghost mem0: seq<Word>) returns (clauses: seq<nat>)
      requires Valid(mem0, stacks) && mem0 <= mem
      modifies this`mem
      ensures clauses == Pointers(LiveBlocks(mem0, All(stacks)))
      ensures Collected(mem0, old(mem), mem, All(stacks), |All(stacks)|)
    {
      hide Valid, All, Collected, LiveBlocks, AllApart, ClauseAt, Blocks, Live;
      ghost var bs, mem1 := All(stacks), mem;
      clauses := [];
      CollectReady(mem0, mem, stacks);
      for i := 0 to |stacks|
        invariant |All(stacks[..i])| <= |bs| && Collected(mem0, mem1, mem, bs, |All(stacks[..i])|)
        invariant clauses == Pointers(LiveBlocks(mem0, bs[..|All(stacks[..i])|]))
      {
        AllStep(stacks, i);
        AllWithin(stacks, i + 1);
        clauses := CollectStack(i, clauses, mem0, mem1, bs, |All(stacks[..i])|);
      }
      assert stacks[..|stacks|] == stacks && bs[..|bs|] == bs;
    }

    /** `putClausesIntoDatastruct`: clauses of three literals and fewer are kept apart. */
    method PutClausesIntoDatastruct(clauses: seq<nat>, ghost mem0: seq<Word>, ghost live: seq<Block>)
      requires clauses == Pointers(live) && Movable(mem0, live)
      requires forall b :: b in live ==> SameAt(mem0, mem, b.p, b.p + b.len)
      modifies this`otherClauses, this`threeLongClauses
      ensures Parted(mem0, threeLongClauses, otherClauses, clauses)
    {
      hide Parted, Movable, NoDup, Short, SameAt;
      PointersApart(mem0, live);
      otherClauses, threeLongClauses := [], [];
      PartedNone(mem0, clauses);
      for i := 0 to |clauses|
        invariant Parted(mem0, threeLongClauses, otherClauses, clauses[..i])
      {
        var c := clauses[i];
        SizeAt(mem0, mem, live, i);
        PrefixWithout(clauses, i);
        PartStep(mem0, threeLongClauses, otherClauses, clauses[..i], c);
        if mem[c].size <= 3 {
          threeLongClauses := threeLongClauses + [c];
        } else {
          otherClauses := otherClauses + [c];
        }
        assert clauses[..i] + [c] == clauses[..i + 1];
      }
      assert clauses[..|clauses|] == clauses;
    }

    /** `getClause`: the short ones first, each list from its end. */
    method GetClause() returns (p: nat)
      requires |threeLongClauses| + |otherClauses| > 0
      modifies this`otherClauses, this`threeLongClauses
      ensures (old(threeLongClauses) == threeLongClauses + [p] && otherClauses == old(otherClauses)) ||
        (old(threeLongClauses) == [] == threeLongClauses && old(otherClauses) == otherClauses + [p])
    {
      if threeLongClauses != [] {
        p := threeLongClauses[|threeLongClauses| - 1];
        threeLongClauses := threeLongClauses[..|threeLongClauses| - 1];
      } else {
        p := otherClauses[|otherClauses| - 1];
        otherClauses := otherClauses[..|otherClauses| - 1];
      }
    }

    /** All clauses are copied to the new lists, which are enough, and leave their entries behind. */
    method CopyClauses(
        count: nat, news0: seq<Stack>, ghost mem0: seq<Word>, ghost live: seq<Block>, ghost maxes: seq<nat>,
        ghost sum: nat)
      returns (news: seq<Stack>, ghost dest: map<nat, nat>, ghost w: nat)
      requires Midway(mem0, mem, news0, live, map[], threeLongClauses, otherClauses, 0, maxes, sum)
      requires count == |threeLongClauses| + |otherClauses|
      modifies this`mem, this`otherClauses, this`threeLongClauses
      ensures Midway(mem0, mem, news, live, dest, [], [], w, maxes, sum)
    {
      hide Midway, NeedOf, Forward, CopyTo, Bumped, Written;
      news, dest := news0, map[];
      var outerPart := 0;
      for i := 0 to count
        invariant Midway(mem0, mem, news, live, dest, threeLongClauses, otherClauses, outerPart, maxes, sum)
        invariant |threeLongClauses| + |otherClauses| == count - i
      {
        ghost var three, others := threeLongClauses, otherClauses;
        var c := GetClause();
        SizeStill(mem0, mem, news, live, dest, three, others, outerPart, maxes, sum, c);
        MidwayStep(mem0, mem, news, live, dest, three, others, outerPart, maxes, sum, c, threeLongClauses,
          otherClauses);
        var sizeNeeded := Max(HEADER + mem[c].size, HEADER + 2);
        if news[outerPart].size + sizeNeeded > news[outerPart].max {
          outerPart := outerPart + 1;
        }
        dest := dest[c := news[outerPart].start + news[outerPart].size];
        news := MoveClause(c, outerPart, sizeNeeded, news);
      }
      w := outerPart;
      assert threeLongClauses == [] && otherClauses == [];
    }

    /** `memcpy`, the entry at the old place, and the new list's size. */
    method MoveClause(c: nat, w: nat, n: nat, news0: seq<Stack>) returns (news: seq<Stack>)
      requires w < |news0| <= NUM_STACKS && c + n <= |mem| && n >= HEADER + 2
      requires news0[w].start + news0[w].size + n <= |mem|
      modifies this`mem
      ensures mem ==
        Forward(CopyTo(old(mem), news0, w, c, n), c, Combine(w, news0[w].size), news0[w].start + news0[w].size)
      ensures news == news0[w := Bumped(news0[w], n)]
    {
      var st := news0[w];
      var newPointer := st.start + st.size;
      mem := Written(mem, newPointer, mem[c..c + n]);
      mem := mem[c := NewOffset(Combine(w, st.size))];
      mem := mem[c + 1 := Junk];
      mem := mem[c + 2 := NewPointer(newPointer)];
      mem := mem[c + 3 := Junk];
      news := news0[w := Stack(st.start, st.max, st.size + n, st.orig + [n], st.used + n)];
    }

    /** `updatePointers`: every pointer is replaced by what its old place says. */
    method UpdatePointers(ptrs: seq<nat>, ghost dest: map<nat, nat>, ghost news: seq<Stack>) returns (r: seq<nat>)
      requires forall p :: p in ptrs ==> p in dest && Entry(mem, news, p, dest[p])
      ensures |r| == |ptrs| && forall k :: 0 <= k < |ptrs| ==> r[k] == dest[ptrs[k]]
    {
      r := [];
      for k := 0 to |ptrs|
        invariant |r| == k && forall j :: 0 <= j < k ==> r[j] == dest[ptrs[j]]
      {
        assert ptrs[k] in ptrs;
        r := r + [mem[ptrs[k] + 2].p];
      }
    }

    /** `updateOffsets`: every offset, looked up in the old stacks, is replaced by what the place there says. */
    method UpdateOffsets(offs: seq<nat>, ghost dest: map<nat, nat>, ghost news: seq<Stack>) returns (r: seq<nat>)
      requires forall o :: o in offs ==> OffsetOk(mem, stacks, news, dest, o)
      ensures |r| == |offs| && forall k :: 0 <= k < |offs| ==> Relocated(stacks, news, dest, offs[k], r[k])
    {
      r := [];
      for k := 0 to |offs|
        invariant |r| == k && forall j :: 0 <= j < k ==> Relocated(stacks, news, dest, offs[j], r[j])
      {
        assert offs[k] in offs && OffsetOk(mem, stacks, news, dest, offs[k]);
        r := r + [mem[PointerOf(stacks, offs[k])].o];
      }
    }

    /** The sums over all stacks: estimated use, and what is taken. */
    method Sums() returns (sum: int, sumAlloc: int)
      ensures sum == UsedTotal(stacks) && sumAlloc == SizeTotal(stacks)
    {
      sum, sumAlloc := 0, 0;
      for i := 0 to |stacks|
        invariant sum == UsedTotal(stacks[..i])
      {
        assert stacks[..i + 1][..i] == stacks[..i];
        sum := sum + stacks[i].used;
      }
      for i := 0 to |stacks|
        invariant sumAlloc == SizeTotal(stacks[..i])
      {
        assert stacks[..i + 1][..i] == stacks[..i];
        sumAlloc := sumAlloc + stacks[i].size;
      }
      assert stacks[..|stacks|] == stacks;
    }

    /**
     `consolidate`, for callers that hold the pointers `ptrs` and offsets `offs`.  Either
     nothing is done, because more than seven tenths of the words taken are alive (or lost in
     freed clauses that had been shrunk) and there are few stacks; or it fails, because
     sixteen lists are not enough; or the clauses that are not freed, and no others, are
     moved with unchanged contents to blocks that do not overlap, every pointer and offset
     is to the new place, and the estimates are exact again.
     */
    method Consolidate(force: bool, ptrs: seq<nat>, offs: seq<nat>)
      returns (moved: bool, failed: bool, ptrs': seq<nat>, offs': seq<nat>, ghost dest: map<nat, nat>)
      requires Valid(mem, stacks)
      requires forall p :: p in ptrs ==> LiveAt(mem, stacks, p)
      requires forall o :: o in offs ==> o % NUM_STACKS < |stacks| && LiveAt(mem, stacks, PointerOf(stacks, o))
      modifies this
      ensures !moved ==> mem == old(mem) && stacks == old(stacks) && ptrs' == ptrs && offs' == offs
      ensures !moved && !failed <==> !force && InUse(old(stacks))
      ensures InUse(old(stacks)) <==> MostlyAlive(old(mem), old(stacks))
      ensures failed <==> (force || !InUse(old(stacks))) && NeedSize(UsedTotal(old(stacks))) > NUM_STACKS * MAXSIZE
      ensures failed ==> !moved
      ensures moved ==> Consolidated(old(mem), old(stacks), mem, stacks, dest)
      ensures moved ==> UsedTotal(stacks) == Live(mem, All(stacks)) && Lost(mem, All(stacks)) == 0
      ensures moved && Unshrunk(old(mem), All(old(stacks))) ==> Unshrunk(mem, All(stacks))
      ensures moved ==>
        |ptrs'| == |ptrs| && forall k :: 0 <= k < |ptrs| ==> ptrs[k] in dest && ptrs'[k] == dest[ptrs[k]]
      ensures moved ==>
        |offs'| == |offs| && forall k :: 0 <= k < |offs| ==> Relocated(old(stacks), stacks, dest, offs[k], offs'[k])
    {
      ghost var mem0 := mem;
      moved, failed, ptrs', offs', dest := false, false, ptrs, offs, map[];
      var sum, sumAlloc := Sums();
      UsedNat(mem, stacks);
      InUseAlive(mem, stacks);
      if !force && sumAlloc > 0 && 10 * sum > 7 * sumAlloc && |stacks| < 10 {
        return;
      }
      var maxes, ok := NewMaxSizes(sum);
      if !ok {
        failed := true;
        return;
      }
      var news;
      ghost var w;
      hide Valid, Consolidated, LiveAt, Entry, PointerOf, All, UsedTotal;
      news, dest, w := MoveAll(maxes, sum);
      AllMoved(mem0, stacks, mem, news, LiveBlocks(mem0, All(stacks)), dest, w, maxes, sum);
      NothingLost(mem0, stacks, mem, news, dest);
      EntriesOf(mem0, stacks, mem, news, dest);
      ptrs' := UpdatePointers(ptrs, dest, news);
      offs' := UpdateOffsets(offs, dest, news);
      stacks := news;
      moved := true;
    }

    /** Everything up to the point where all clauses are in the new lists. */
    method MoveAll(maxes: seq<nat>, ghost sum: nat) returns (news: seq<Stack>, ghost dest: map<nat, nat>, ghost w: nat)
      requires Valid(mem, stacks) && Enough(maxes, sum) && sum == UsedTotal(stacks)
      modifies this`mem, this`otherClauses, this`threeLongClauses
      ensures Midway(old(mem), mem, news, LiveBlocks(old(mem), All(stacks)), dest, [], [], w, maxes, sum)
    {
      ghost var mem0 := mem;
      SizesFine(maxes, sum);
      hide Valid, All, Moving, Exactly, Movable, Parted, Collected, LiveBlocks, Room, ToMove, Enough, UsedTotal, Midway;
      news := AllocLists(maxes);
      ghost var mem1 := mem;
      var clauses := CollectClauses(mem0);
      ghost var live := LiveBlocks(mem0, All(stacks));
      ReadyToMove(mem0, mem1, mem, stacks, news, live);
      Untouched(mem0, mem, news, live);
      PutClausesIntoDatastruct(clauses, mem0, live);
      RoomAtFirst(mem0, stacks, news, maxes, sum, threeLongClauses, otherClauses);
      AllToMove(mem0, live, threeLongClauses, otherClauses);
      AtStart(mem0, mem, news, live, threeLongClauses, otherClauses, maxes, sum);
      PartedCount(mem0, threeLongClauses, otherClauses, clauses);
      news, dest, w := CopyClauses(|clauses|, news, mem0, live, maxes, sum);
    }
  }
}
