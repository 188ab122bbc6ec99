/**
 The memory of cmsat's `ClauseAllocator`: clauses live one behind the other in at most
 sixteen stacks of memory words and are addressed by 32-bit offsets.

 Memory is a list of words, each tagged with what was last written there; a pointer is
 an index into it, and `malloc` takes words at its end.
 */
module ClauseStacks {
  /** A word of memory: the first of a clause, another of its words, or part of a forwarding entry. */
  datatype Word =
    | Head(freed: bool, size: nat, flags: nat)
    | Data(bits: nat)
    | NewOffset(o: nat)
    | NewPointer(p: nat)
    | Junk

  /**
   One stack: where it starts, its capacity, the words in use, the sizes clauses were allocated
   with, the estimate.
   */
  datatype Stack = Stack(start: nat, max: nat, size: nat, orig: seq<nat>, used: int)

  /** The memory of a clause. */
  datatype Block = Block(p: nat, len: nat)

  /** `sizeof(Clause)` in words. */
  const HEADER: nat := 3
  const NO_OFFSET: nat := 0xFFFF_FFFF
  const NUM_STACKS: nat := 16
  const MIN_LIST_SIZE: nat := 300000 * 7
  const MAXSIZE: nat := 0x3FF_FFFF
  const ALLOC_GROW_MULT: nat := 8
  /** The size field of a clause has eighteen bits. */
  const SIZE_LIMIT: nat := 0x4_0000

  function Min(a: int, b: int): int { if a < b then a else b }

  function Max(a: int, b: int): int { if a < b then b else a }

  // ----- offsets -----

  /** `combineOuterInterOffsets`. */
  function Combine(outer: nat, inter: nat): (o: nat)
    requires outer < NUM_STACKS
    ensures o % NUM_STACKS == outer && o / NUM_STACKS == inter
  {
    outer + NUM_STACKS * inter
  }

  /** The arithmetic above is what the bit operations of the source do. */
  lemma CombineBits(outer: bv32, inter: bv32)
    requires outer < 16 && inter < 0x1000_0000
    ensures outer | (inter << 4) == outer + (inter << 4)
    ensures (outer | (inter << 4)) & 15 == outer && (outer | (inter << 4)) >> 4 == inter
  {
  }

  /** `getPointer`. */
  function PointerOf(stacks: seq<Stack>, o: nat): nat
    requires o % NUM_STACKS < |stacks|
  {
    stacks[o % NUM_STACKS].start + o / NUM_STACKS
  }

  // ----- blocks -----

  function Sum(s: seq<nat>): nat {
    if s == [] then 0 else Sum(s[..|s| - 1]) + s[|s| - 1]
  }

  /** The blocks of a stack, one behind the other. */
  function Blocks(start: nat, orig: seq<nat>): (r: seq<Block>)
    ensures |r| == |orig|
  {
    if orig == [] then []
    else
      var last := |orig| - 1;
      Blocks(start, orig[..last]) + [Block(start + Sum(orig[..last]), orig[last])]
  }

  lemma {:induction false} BlocksInside(start: nat, orig: seq<nat>)
    ensures forall b :: b in Blocks(start, orig) ==> start <= b.p && b.p + b.len <= start + Sum(orig)
  {
    if orig != [] {
      BlocksInside(start, orig[..|orig| - 1]);
    }
  }

  predicate Apart(a: Block, b: Block) {
    a.p + a.len <= b.p || b.p + b.len <= a.p
  }

  ghost predicate AllApart(bs: seq<Block>) {
    forall i, j :: 0 <= i < j < |bs| ==> Apart(bs[i], bs[j])
  }

  lemma {:induction false} BlocksApart(start: nat, orig: seq<nat>)
    ensures AllApart(Blocks(start, orig))
  {
    if orig != [] {
      var last := |orig| - 1;
      BlocksApart(start, orig[..last]);
      BlocksInside(start, orig[..last]);
      var bs := Blocks(start, orig);
      forall i, j | 0 <= i < j < |bs| ensures Apart(bs[i], bs[j]) {
        assert i < last && bs[i] == Blocks(start, orig[..last])[i];
        assert Blocks(start, orig[..last])[i] in Blocks(start, orig[..last]);
      }
    }
  }

  predicate Freed(mem: seq<Word>, p: nat) {
    p < |mem| && mem[p].Head? && mem[p].freed
  }

  /** The words of the blocks that are not freed. */
  function Live(mem: seq<Word>, bs: seq<Block>): nat {
    if bs == [] then 0
    else Live(mem, bs[..|bs| - 1]) + if Freed(mem, bs[|bs| - 1].p) then 0 else bs[|bs| - 1].len
  }

  /** The words of a freed clause that it had lost to shrinking before it was freed. */
  function Waste(mem: seq<Word>, b: Block): nat {
    if Freed(mem, b.p) && HEADER + mem[b.p].size <= b.len then b.len - (HEADER + mem[b.p].size) else 0
  }

  function Lost(mem: seq<Word>, bs: seq<Block>): nat {
    if bs == [] then 0 else Lost(mem, bs[..|bs| - 1]) + Waste(mem, bs[|bs| - 1])
  }

  /** A clause, freed or not, that fits its block. */
  predicate ClauseAt(mem: seq<Word>, b: Block) {
    && b.p + b.len <= |mem| && b.len >= HEADER + 2 && mem[b.p].Head? && mem[b.p].size < SIZE_LIMIT
    && HEADER + mem[b.p].size <= b.len
  }

  /** The estimate of a stack is the words alive and those lost in freed clauses. */
  ghost predicate StackOk(mem: seq<Word>, st: Stack) {
    && st.start + st.max <= |mem| && Sum(st.orig) == st.size <= st.max <= MAXSIZE
    && (forall b :: b in Blocks(st.start, st.orig) ==> ClauseAt(mem, b))
    && st.used == Live(mem, Blocks(st.start, st.orig)) + Lost(mem, Blocks(st.start, st.orig))
  }

  predicate StacksApart(a: Stack, b: Stack) {
    a.start + a.max <= b.start || b.start + b.max <= a.start
  }

  ghost predicate Valid(mem: seq<Word>, stacks: seq<Stack>) {
    && |stacks| <= NUM_STACKS
    && (forall i :: 0 <= i < |stacks| ==> StackOk(mem, stacks[i]))
    && (forall i, j :: 0 <= i < j < |stacks| ==> StacksApart(stacks[i], stacks[j]))
  }

  /** The blocks of all stacks. */
  function All(stacks: seq<Stack>): seq<Block> {
    if stacks == [] then []
    else All(stacks[..|stacks| - 1]) + Blocks(stacks[|stacks| - 1].start, stacks[|stacks| - 1].orig)
  }

  lemma {:induction false} InAll(stacks: seq<Stack>, b: Block)
    ensures b in All(stacks) <==> exists i :: 0 <= i < |stacks| && b in Blocks(stacks[i].start, stacks[i].orig)
  {
    hide Blocks;
    if stacks != [] {
      var front := stacks[..|stacks| - 1];
      InAll(front, b);
      if i :| 0 <= i < |front| && b in Blocks(front[i].start, front[i].orig) {
        assert stacks[i] == front[i];
      }
    }
  }

  /** A block of the last stack and one of another are apart. */
  lemma StacksKeepApart(mem: seq<Word>, stacks: seq<Stack>, x: Block, y: Block)
    requires Valid(mem, stacks) && stacks != []
    requires x in All(stacks[..|stacks| - 1]) && y in Blocks(stacks[|stacks| - 1].start, stacks[|stacks| - 1].orig)
    ensures Apart(x, y)
  {
    hide Blocks, All;
    var last := |stacks| - 1;
    InAll(stacks[..last], x);
    var k :| 0 <= k < |stacks[..last]| && x in Blocks(stacks[..last][k].start, stacks[..last][k].orig);
    assert stacks[..last][k] == stacks[k];
    BlocksInside(stacks[k].start, stacks[k].orig);
    BlocksInside(stacks[last].start, stacks[last].orig);
    assert StacksApart(stacks[k], stacks[last]) && StackOk(mem, stacks[k]) && StackOk(mem, stacks[last]);
  }

  /** Two clauses of a valid allocator never overlap. */
  lemma {:induction false} NoOverlap(mem: seq<Word>, stacks: seq<Stack>)
    requires Valid(mem, stacks)
    ensures AllApart(All(stacks))
  {
    hide Blocks, StackOk;
    if stacks != [] {
      var last := |stacks| - 1;
      var st, front := stacks[last], stacks[..last];
      NoOverlap(mem, front);
      BlocksApart(st.start, st.orig);
      var xs, ys := All(front), Blocks(st.start, st.orig);
      forall i, j | 0 <= i < j < |xs + ys| ensures Apart((xs + ys)[i], (xs + ys)[j]) {
        if i < |xs| <= j {
          assert xs[i] in xs && ys[j - |xs|] in ys;
          StacksKeepApart(mem, stacks, xs[i], ys[j - |xs|]);
        }
      }
    }
  }

  // ----- frames -----

  ghost predicate SameAt(mem: seq<Word>, mem': seq<Word>, from: nat, to: nat) {
    to <= |mem| && to <= |mem'| && forall a :: from <= a < to ==> mem'[a] == mem[a]
  }

  lemma {:induction false} LiveSame(mem: seq<Word>, mem': seq<Word>, bs: seq<Block>)
    requires forall b :: b in bs ==> b.p < |mem| && b.p < |mem'| && mem'[b.p] == mem[b.p]
    ensures Live(mem', bs) == Live(mem, bs) && Lost(mem', bs) == Lost(mem, bs)
  {
    if bs != [] {
      assert bs[|bs| - 1] in bs;
      LiveSame(mem, mem', bs[..|bs| - 1]);
    }
  }

  /** What happens outside its used part does not matter to a stack. */
  lemma StackSame(mem: seq<Word>, mem': seq<Word>, st: Stack)
    requires StackOk(mem, st) && SameAt(mem, mem', st.start, st.start + st.size) && st.start + st.max <= |mem'|
    ensures StackOk(mem', st)
  {
    var bs := Blocks(st.start, st.orig);
    BlocksInside(st.start, st.orig);
    forall b | b in bs ensures ClauseAt(mem', b) && mem'[b.p] == mem[b.p] {
      assert ClauseAt(mem, b);
    }
    LiveSame(mem, mem', bs);
  }

  lemma BlocksGrow(mem: seq<Word>, start: nat, orig: seq<nat>, len: nat)
    ensures Sum(orig + [len]) == Sum(orig) + len
    ensures Blocks(start, orig + [len]) == Blocks(start, orig) + [Block(start + Sum(orig), len)]
    ensures Live(mem, Blocks(start, orig + [len])) ==
      Live(mem, Blocks(start, orig)) + if Freed(mem, start + Sum(orig)) then 0 else len
    ensures Lost(mem, Blocks(start, orig + [len])) ==
      Lost(mem, Blocks(start, orig)) + Waste(mem, Block(start + Sum(orig), len))
  {
    var orig' := orig + [len];
    assert orig'[..|orig'| - 1] == orig;
    var bs := Blocks(start, orig) + [Block(start + Sum(orig), len)];
    assert bs[..|bs| - 1] == Blocks(start, orig);
  }

  /** One block more at the end of a stack. */
  lemma StackGrows(mem: seq<Word>, mem': seq<Word>, st: Stack, len: nat)
    requires StackOk(mem, st) && SameAt(mem, mem', st.start, st.start + st.size) && st.start + st.max <= |mem'|
    requires st.size + len <= st.max && ClauseAt(mem', Block(st.start + st.size, len))
    requires !Freed(mem', st.start + st.size)
    ensures StackOk(mem', Stack(st.start, st.max, st.size + len, st.orig + [len], st.used + len))
  {
    hide Blocks, Sum, Live, Lost, ClauseAt, Freed;
    StackSame(mem, mem', st);
    BlocksGrow(mem', st.start, st.orig, len);
  }

  lemma {:induction false} LiveFreed(mem: seq<Word>, bs: seq<Block>, b: Block)
    requires AllApart(bs) && b in bs && (forall c :: c in bs ==> c.p < |mem| && c.len > 0) && mem[b.p].Head?
    requires !mem[b.p].freed && HEADER + mem[b.p].size <= b.len
    ensures Live(mem[b.p := mem[b.p].(freed := true)], bs) == Live(mem, bs) - b.len
    ensures Lost(mem[b.p := mem[b.p].(freed := true)], bs) == Lost(mem, bs) + b.len - (HEADER + mem[b.p].size)
  {
    hide AllApart;
    var mem' := mem[b.p := mem[b.p].(freed := true)];
    var last := |bs| - 1;
    if bs[last] == b {
      forall c | c in bs[..last] ensures mem'[c.p] == mem[c.p] {
        EarlierApart(bs, c);
      }
      LiveSame(mem, mem', bs[..last]);
    } else {
      var i :| 0 <= i < |bs| && bs[i] == b;
      assert bs[..last][i] == b;
      EarlierApart(bs, b);
      EarlierAllApart(bs);
      LiveFreed(mem, bs[..last], b);
    }
  }

  lemma EarlierApart(bs: seq<Block>, c: Block)
    requires AllApart(bs) && bs != [] && c in bs[..|bs| - 1]
    ensures Apart(c, bs[|bs| - 1])
  {
    var i :| 0 <= i < |bs| - 1 && bs[i] == c;
    assert Apart(bs[i], bs[|bs| - 1]);
  }

  lemma EarlierAllApart(bs: seq<Block>)
    requires AllApart(bs) && bs != []
    ensures AllApart(bs[..|bs| - 1])
  {
  }

  /** A clause gives back the words it needs now; it was allocated with no fewer. */
  lemma StackFrees(mem: seq<Word>, st: Stack, b: Block)
    requires StackOk(mem, st) && b in Blocks(st.start, st.orig) && !Freed(mem, b.p)
    ensures b.p < |mem| && mem[b.p].Head?
    ensures StackOk(mem[b.p := mem[b.p].(freed := true)], st.(used := st.used - (HEADER + mem[b.p].size)))
  {
    assert ClauseAt(mem, b);
    var mem' := mem[b.p := mem[b.p].(freed := true)];
    var bs := Blocks(st.start, st.orig);
    forall c | c in bs ensures ClauseAt(mem', c) && c.len > 0 {
      assert ClauseAt(mem, c);
    }
    BlocksApart(st.start, st.orig);
    LiveFreed(mem, bs, b);
  }

  /** A shorter clause in the same block. */
  lemma StackShrinks(mem: seq<Word>, st: Stack, b: Block, size: nat)
    requires StackOk(mem, st) && b in Blocks(st.start, st.orig) && !Freed(mem, b.p)
    requires b.p < |mem| && mem[b.p].Head? && size <= mem[b.p].size
    ensures StackOk(mem[b.p := mem[b.p].(size := size)], st)
  {
    var mem' := mem[b.p := mem[b.p].(size := size)];
    var bs := Blocks(st.start, st.orig);
    forall c | c in bs ensures ClauseAt(mem', c) {
      assert ClauseAt(mem, c) && ClauseAt(mem, b);
    }
    LiveLike(mem, mem', bs);
  }

  lemma {:induction false} LiveLike(mem: seq<Word>, mem': seq<Word>, bs: seq<Block>)
    requires forall b :: b in bs ==> Freed(mem', b.p) == Freed(mem, b.p) && Waste(mem', b) == Waste(mem, b)
    ensures Live(mem', bs) == Live(mem, bs) && Lost(mem', bs) == Lost(mem, bs)
  {
    if bs != [] {
      assert bs[|bs| - 1] in bs;
      LiveLike(mem, mem', bs[..|bs| - 1]);
    }
  }

  /** A change in one stack leaves the others as they are. */
  lemma OneStackChanges(mem: seq<Word>, stacks: seq<Stack>, mem': seq<Word>, i: nat, st': Stack)
    requires Valid(mem, stacks) && i < |stacks| && |mem| <= |mem'| && StackOk(mem', st')
    requires st'.start == stacks[i].start && st'.max == stacks[i].max
    requires forall a :: 0 <= a < |mem| && !(st'.start <= a < st'.start + st'.max) ==> mem'[a] == mem[a]
    ensures Valid(mem', stacks[i := st'])
  {
    var stacks' := stacks[i := st'];
    forall j | 0 <= j < |stacks| ensures StackOk(mem', stacks'[j]) {
      if j != i {
        assert StackOk(mem, stacks[j]);
        assert if j < i then StacksApart(stacks[j], stacks[i]) else StacksApart(stacks[i], stacks[j]);
        StackSame(mem, mem', stacks[j]);
      }
    }
    forall j, k | 0 <= j < k < |stacks| ensures StacksApart(stacks'[j], stacks'[k]) {
      assert StacksApart(stacks[j], stacks[k]);
    }
  }

  predicate InStack(st: Stack, p: nat) {
    st.start <= p < st.start + st.max
  }

  /** There is a clause at `p` that is not freed. */
  ghost predicate IsClause(mem: seq<Word>, stacks: seq<Stack>, p: nat) {
    p < |mem| && mem[p].Head? && !mem[p].freed && exists b :: b in All(stacks) && b.p == p
  }

  function Words(ps: seq<nat>): (r: seq<Word>)
    ensures |r| == |ps|
  {
    seq(|ps|, i requires 0 <= i < |ps| => Data(ps[i]))
  }

  /** `memcpy` of the words `ws` to `p`. */
  function Written(mem: seq<Word>, p: nat, ws: seq<Word>): (r: seq<Word>)
    requires p + |ws| <= |mem|
    ensures |r| == |mem|
    ensures forall a :: 0 <= a < |mem| ==> r[a] == if p <= a < p + |ws| then ws[a - p] else mem[a]
  {
    mem[..p] + ws + mem[p + |ws|..]
  }

  /** The stack of a block, and where in it the block is. */
  lemma BlockStack(mem: seq<Word>, stacks: seq<Stack>, b: Block) returns (i: nat)
    requires Valid(mem, stacks) && b in All(stacks)
    ensures i < |stacks| && b in Blocks(stacks[i].start, stacks[i].orig) && StackOk(mem, stacks[i]) && ClauseAt(mem, b)
    ensures stacks[i].start <= b.p && b.p + b.len <= stacks[i].start + stacks[i].size
  {
    InAll(stacks, b);
    i :| 0 <= i < |stacks| && b in Blocks(stacks[i].start, stacks[i].orig);
    assert StackOk(mem, stacks[i]);
    BlocksInside(stacks[i].start, stacks[i].orig);
  }

  lemma HasStack(mem: seq<Word>, stacks: seq<Stack>, p: nat) returns (i: nat)
    requires Valid(mem, stacks) && IsClause(mem, stacks, p)
    ensures i < |stacks| && InStack(stacks[i], p)
  {
    var b :| b in All(stacks) && b.p == p;
    i := BlockStack(mem, stacks, b);
  }

  /** A pointer is in one stack only. */
  lemma OneStack(mem: seq<Word>, stacks: seq<Stack>, p: nat, i: nat, j: nat)
    requires Valid(mem, stacks) && i < |stacks| && j < |stacks| && InStack(stacks[i], p) && InStack(stacks[j], p)
    ensures i == j
  {
  }

  lemma AllKeeps(stacks: seq<Stack>, i: nat, st': Stack)
    requires i < |stacks| && st'.start == stacks[i].start && st'.orig == stacks[i].orig
    ensures All(stacks[i := st']) == All(stacks)
  {
    var stacks' := stacks[i := st'];
    var last := |stacks| - 1;
    if i < last {
      AllKeeps(stacks[..last], i, st');
      assert stacks'[..last] == stacks[..last][i := st'];
    } else {
      assert stacks'[..last] == stacks[..last];
    }
  }

  lemma ShrinkOk(mem: seq<Word>, stacks: seq<Stack>, p: nat, size: nat)
    requires Valid(mem, stacks) && IsClause(mem, stacks, p) && size <= mem[p].size
    ensures Valid(mem[p := mem[p].(size := size)], stacks)
  {
    var b :| b in All(stacks) && b.p == p;
    var i := BlockStack(mem, stacks, b);
    StackShrinks(mem, stacks[i], b, size);
    hide All, Blocks, StackOk;
    OneStackChanges(mem, stacks, mem[p := mem[p].(size := size)], i, stacks[i]);
    assert stacks[i := stacks[i]] == stacks;
  }

  /** A stack whose estimate gets `n` words back. */
  function Lowered(st: Stack, n: nat): Stack {
    st.(used := st.used - n)
  }

  lemma FreeOk(mem: seq<Word>, stacks: seq<Stack>, p: nat, outer: nat)
    requires Valid(mem, stacks) && IsClause(mem, stacks, p) && outer < |stacks| && InStack(stacks[outer], p)
    ensures var st' := Lowered(stacks[outer], HEADER + mem[p].size);
      Valid(mem[p := mem[p].(freed := true)], stacks[outer := st']) && All(stacks[outer := st']) == All(stacks)
  {
    var b :| b in All(stacks) && b.p == p;
    var i := BlockStack(mem, stacks, b);
    OneStack(mem, stacks, p, i, outer);
    var st' := Lowered(stacks[outer], HEADER + mem[p].size);
    StackFrees(mem, stacks[outer], b);
    AllKeeps(stacks, outer, st');
    hide All, Blocks, StackOk;
    OneStackChanges(mem, stacks, mem[p := mem[p].(freed := true)], outer, st');
  }

  /** A stack with one more block. */
  function Bumped(st: Stack, len: nat): Stack {
    Stack(st.start, st.max, st.size + len, st.orig + [len], st.used + len)
  }

  function ClauseWords(ps: seq<nat>, flags: nat, abst: nat): (r: seq<Word>)
    ensures |r| == HEADER + |ps|
  {
    [Head(false, |ps|, flags), Data(0), Data(abst)] + Words(ps)
  }

  lemma WrittenIs(mem: seq<Word>, p: nat, ps: seq<nat>, flags: nat, abst: nat)
    requires p + HEADER + |ps| <= |mem| && 2 < |ps| < SIZE_LIMIT
    ensures ClauseIs(Written(mem, p, ClauseWords(ps, flags, abst)), p, ps, flags)
    ensures ClauseAt(Written(mem, p, ClauseWords(ps, flags, abst)), Block(p, HEADER + |ps|))
  {
    var mem' := Written(mem, p, ClauseWords(ps, flags, abst));
    forall k | 0 <= k < |ps| ensures mem'[p + HEADER + k] == Data(ps[k]) {
      assert ClauseWords(ps, flags, abst)[HEADER + k] == Words(ps)[k];
    }
  }

  /** The stack with room gets the new clause. */
  lemma AddedValid(mem: seq<Word>, stacks: seq<Stack>, w: nat, ps: seq<nat>, flags: nat, abst: nat)
    requires Valid(mem, stacks) && w < |stacks| && 2 < |ps| < SIZE_LIMIT
    requires stacks[w].size + HEADER + |ps| < stacks[w].max
    ensures stacks[w].start + stacks[w].size + HEADER + |ps| <= |mem|
    ensures Valid(Written(mem, stacks[w].start + stacks[w].size, ClauseWords(ps, flags, abst)),
        stacks[w := Bumped(stacks[w], HEADER + |ps|)])
  {
    var st := stacks[w];
    var p := st.start + st.size;
    assert StackOk(mem, st);
    var mem' := Written(mem, p, ClauseWords(ps, flags, abst));
    WrittenIs(mem, p, ps, flags, abst);
    hide StackOk, Blocks, All, Live, Sum, ClauseWords, ClauseIs, ClauseAt;
    StackGrows(mem, mem', st, HEADER + |ps|);
    OneStackChanges(mem, stacks, mem', w, Bumped(st, HEADER + |ps|));
  }

  ghost predicate OneMore(bs: seq<Block>, bs': seq<Block>, nb: Block) {
    nb in bs' && (forall b :: b in bs ==> b in bs') && (forall b :: b in bs' ==> b in bs || b == nb)
  }

  lemma AddedBlocks(mem: seq<Word>, stacks: seq<Stack>, w: nat, len: nat)
    requires w < |stacks| && StackOk(mem, stacks[w])
    ensures OneMore(All(stacks), All(stacks[w := Bumped(stacks[w], len)]), Block(stacks[w].start + stacks[w].size, len))
  {
    var st := stacks[w];
    var st', nb := Bumped(st, len), Block(st.start + st.size, len);
    BlocksGrow(mem, st.start, st.orig, len);
    assert Blocks(st'.start, st'.orig) == Blocks(st.start, st.orig) + [nb];
    hide All, Blocks, Bumped, StackOk;
    AllGrows(stacks, w, st', nb, nb);
    forall b | b in All(stacks) ensures b in All(stacks[w := st']) {
      AllGrows(stacks, w, st', b, nb);
    }
    forall b | b in All(stacks[w := st']) ensures b in All(stacks) || b == nb {
      AllGrows(stacks, w, st', b, nb);
    }
  }

  /** Everything about one more clause at the end of stack `w`. */
  lemma StackIn(mem: seq<Word>, stacks: seq<Stack>, w: nat)
    requires Valid(mem, stacks) && w < |stacks|
    ensures StackOk(mem, stacks[w]) && stacks[w].start + stacks[w].max <= |mem|
  {
    assert StackOk(mem, stacks[w]);
    StackBound(mem, stacks[w]);
  }

  lemma Putting(mem: seq<Word>, stacks: seq<Stack>, w: nat, ps: seq<nat>, flags: nat, abst: nat)
    requires Valid(mem, stacks) && w < |stacks| && 2 < |ps| < SIZE_LIMIT
    requires stacks[w].size + HEADER + |ps| < stacks[w].max
    ensures stacks[w].start + stacks[w].size + HEADER + |ps| <= |mem|
    ensures Valid(Written(mem, stacks[w].start + stacks[w].size, ClauseWords(ps, flags, abst)),
      stacks[w := Bumped(stacks[w], HEADER + |ps|)])
    ensures ClauseIs(Written(mem, stacks[w].start + stacks[w].size, ClauseWords(ps, flags, abst)),
      stacks[w].start + stacks[w].size, ps, flags)
    ensures OneMore(All(stacks), All(stacks[w := Bumped(stacks[w], HEADER + |ps|)]),
      Block(stacks[w].start + stacks[w].size, HEADER + |ps|))
    ensures OnlyBeyond(mem, Written(mem, stacks[w].start + stacks[w].size, ClauseWords(ps, flags, abst)), stacks[w])
  {
    hide *;
    StackIn(mem, stacks, w);
    AddedValid(mem, stacks, w, ps, flags, abst);
    AddedBlocks(mem, stacks, w, HEADER + |ps|);
    WrittenIs(mem, stacks[w].start + stacks[w].size, ps, flags, abst);
    WrittenBeyond(mem, stacks[w], ClauseWords(ps, flags, abst));
  }

  /** Only memory of the stack that no block has yet is changed. */
  ghost predicate OnlyBeyond(mem: seq<Word>, mem': seq<Word>, st: Stack) {
    && |mem| <= |mem'|
    && forall a :: 0 <= a < |mem| && !(st.start + st.size <= a < st.start + st.max) ==> mem'[a] == mem[a]
  }

  lemma WrittenBeyond(mem: seq<Word>, st: Stack, ws: seq<Word>)
    requires st.start + st.max <= |mem| && st.size + |ws| <= st.max
    ensures OnlyBeyond(mem, Written(mem, st.start + st.size, ws), st)
  {
  }

  /** What is written behind the blocks of a stack changes no block. */
  lemma OldBlocksStay(mem: seq<Word>, stacks: seq<Stack>, w: nat, mem': seq<Word>)
    requires Valid(mem, stacks) && w < |stacks| && OnlyBeyond(mem, mem', stacks[w])
    ensures forall b :: b in All(stacks) ==> SameAt(mem, mem', b.p, b.p + b.len)
  {
    hide Valid, All, StackOk, SameAt, OnlyBeyond;
    forall b | b in All(stacks) ensures SameAt(mem, mem', b.p, b.p + b.len) {
      OldBlockStays(mem, stacks, w, mem', b);
    }
  }

  lemma OldBlockStays(mem: seq<Word>, stacks: seq<Stack>, w: nat, mem': seq<Word>, b: Block)
    requires Valid(mem, stacks) && w < |stacks| && OnlyBeyond(mem, mem', stacks[w]) && b in All(stacks)
    ensures SameAt(mem, mem', b.p, b.p + b.len)
  {
    var i := BlockStack(mem, stacks, b);
    StackBound(mem, stacks[i]);
    assert i != w ==> if i < w then StacksApart(stacks[i], stacks[w]) else StacksApart(stacks[w], stacks[i]);
  }

  lemma SamePrefix(mem0: seq<Word>, mem: seq<Word>, mem': seq<Word>, bs: seq<Block>)
    requires mem0 <= mem && forall b :: b in bs ==> SameAt(mem, mem', b.p, b.p + b.len) && b.p + b.len <= |mem0|
    ensures forall b :: b in bs ==> SameAt(mem0, mem', b.p, b.p + b.len)
  {
    forall a | 0 <= a < |mem0| ensures mem[a] == mem0[a] {
      assert mem[..|mem0|][a] == mem[a];
    }
  }

  lemma BlocksBelow(mem: seq<Word>, stacks: seq<Stack>)
    requires Valid(mem, stacks)
    ensures forall b :: b in All(stacks) ==> b.p + b.len <= |mem|
  {
    forall b | b in All(stacks) ensures b.p + b.len <= |mem| {
      var i := BlockStack(mem, stacks, b);
    }
  }

  lemma AllGrows(stacks: seq<Stack>, w: nat, st': Stack, b: Block, nb: Block)
    requires w < |stacks| && Blocks(st'.start, st'.orig) == Blocks(stacks[w].start, stacks[w].orig) + [nb]
    ensures b in All(stacks[w := st']) <==> b in All(stacks) || b == nb
  {
    var stacks' := stacks[w := st'];
    InAll(stacks, b);
    InAll(stacks', b);
    hide All, Blocks;
    if i :| 0 <= i < |stacks| && b in Blocks(stacks[i].start, stacks[i].orig) {
      assert b in Blocks(stacks'[i].start, stacks'[i].orig);
    }
    if i :| 0 <= i < |stacks'| && b in Blocks(stacks'[i].start, stacks'[i].orig) {
      assert i != w ==> b in Blocks(stacks[i].start, stacks[i].orig);
    }
    assert b == nb ==> b in Blocks(stacks'[w].start, stacks'[w].orig);
  }

  /** Clause `ps` with its header is at `p`. */
  ghost predicate ClauseIs(mem: seq<Word>, p: nat, ps: seq<nat>, flags: nat) {
    && p + HEADER + |ps| <= |mem| && mem[p] == Head(false, |ps|, flags)
    && forall k :: 0 <= k < |ps| ==> mem[p + HEADER + k] == Data(ps[k])
  }

  lemma EmptyStack(mem: seq<Word>, start: nat, max: nat)
    requires start + max <= |mem| && max <= MAXSIZE
    ensures StackOk(mem, Stack(start, max, 0, [], 0))
  {
  }

  lemma AllSnoc(stacks: seq<Stack>, st: Stack)
    ensures All(stacks + [st]) == All(stacks) + Blocks(st.start, st.orig)
  {
    assert (stacks + [st])[..|stacks|] == stacks;
  }

  lemma OldStacksStay(mem: seq<Word>, mem': seq<Word>, stacks: seq<Stack>, i: nat)
    requires Valid(mem, stacks) && i < |stacks| && mem <= mem'
    ensures StackOk(mem', stacks[i]) && stacks[i].start + stacks[i].max <= |mem'|
  {
    hide StackOk, Blocks;
    StackIn(mem, stacks, i);
    forall a | 0 <= a < |mem| ensures mem'[a] == mem[a] {
      assert mem'[..|mem|][a] == mem'[a];
    }
    StackSame(mem, mem', stacks[i]);
  }

  lemma NewStack(mem: seq<Word>, mem': seq<Word>, stacks: seq<Stack>, start: nat, max: nat)
    requires Valid(mem, stacks) && |stacks| < NUM_STACKS && start == |mem| && |mem'| == start + max
    requires mem'[..start] == mem
    requires max <= MAXSIZE
    ensures Valid(mem', stacks + [Stack(start, max, 0, [], 0)])
    ensures All(stacks + [Stack(start, max, 0, [], 0)]) == All(stacks)
  {
    hide StackOk, StacksApart, All;
    var stacks' := stacks + [Stack(start, max, 0, [], 0)];
    AllSnoc(stacks, Stack(start, max, 0, [], 0));
    assert Blocks(start, []) == [];
    EmptyStack(mem', start, max);
    forall i | 0 <= i < |stacks'| ensures StackOk(mem', stacks'[i]) && stacks'[i].start + stacks'[i].max <= |mem'| {
      if i < |stacks| {
        OldStacksStay(mem, mem', stacks, i);
      }
    }
    NewApart(mem, stacks, start, max);
  }

  lemma NewApart(mem: seq<Word>, stacks: seq<Stack>, start: nat, max: nat)
    requires Valid(mem, stacks) && start == |mem|
    ensures var stacks' := stacks + [Stack(start, max, 0, [], 0)];
      forall i, j :: 0 <= i < j < |stacks'| ==> StacksApart(stacks'[i], stacks'[j])
  {
    hide StackOk;
    var stacks' := stacks + [Stack(start, max, 0, [], 0)];
    forall i, j | 0 <= i < j < |stacks'| ensures StacksApart(stacks'[i], stacks'[j]) {
      StackBound(mem, stacks[i]);
    }
  }

  lemma StackBound(mem: seq<Word>, st: Stack)
    requires StackOk(mem, st)
    ensures st.start + st.max <= |mem| && st.size <= st.max
  {
  }
}
