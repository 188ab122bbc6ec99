/**
 `delist`: a list of indices that can be deleted, with an iterator that shortens the
 paths it walks.  Whatever was deleted before or during the walk, the iterator goes on
 to the first later index that is not deleted, just as the plain `dumb_iterator` does.
 */
module Delist {

  /** The first index from `i` on that is not deleted, or -1. */
  function NextFrom(deleted: seq<bool>, i: nat): (r: int)
    requires i <= |deleted|
    ensures r == -1 <==> forall k :: i <= k < |deleted| ==> deleted[k]
    ensures r != -1 ==> i <= r < |deleted| && !deleted[r] && forall k :: i <= k < r ==> deleted[k]
    decreases |deleted| - i
  {
    if i == |deleted| then -1 else if deleted[i] then NextFrom(deleted, i + 1) else i
  }

  /** Every link leads forward over deleted indices only. */
  ghost predicate Links(deleted: seq<bool>, next: seq<int>) {
    && |next| == |deleted| + 1
    && (forall i :: 0 <= i < |next| ==> LinkOk(deleted, next, i))
  }

  ghost predicate LinkOk(deleted: seq<bool>, next: seq<int>, i: nat)
    requires i < |next| == |deleted| + 1
  {
    if next[i] == -1 then forall k :: i <= k < |deleted| ==> deleted[k]
    else i <= next[i] < |deleted| && forall k :: i <= k < next[i] ==> deleted[k]
  }

  /** More deletions keep the links. */
  lemma LinksStay(deleted: seq<bool>, deleted': seq<bool>, next: seq<int>)
    requires Links(deleted, next) && |deleted'| == |deleted|
    requires forall k :: 0 <= k < |deleted| && deleted[k] ==> deleted'[k]
    ensures Links(deleted', next)
  {
    forall i | 0 <= i < |next| ensures LinkOk(deleted', next, i) {
      assert LinkOk(deleted, next, i);
    }
  }

  /** The first index that is not deleted is determined by what lies before it. */
  lemma NextIs(deleted: seq<bool>, i: nat, r: int)
    requires i <= |deleted|
    requires if r == -1 then forall k :: i <= k < |deleted| ==> deleted[k]
      else i <= r < |deleted| && !deleted[r] && forall k :: i <= k < r ==> deleted[k]
    ensures r == NextFrom(deleted, i)
  {
  }

  class DeList {
    var deleted: seq<bool>
    var nextIndex: seq<int>

    ghost predicate Valid()
      reads this
    {
      Links(deleted, nextIndex)
    }

    constructor (sz: nat)
      ensures Valid() && deleted == seq(sz, _ => false)
    {
      deleted := seq(sz, _ => false);
      nextIndex := seq(sz, i => i) + [-1];
    }

    /** `reset`, to the given size or the old one: nothing is deleted any more. */
    method Reset(sz0: int)
      requires sz0 >= -1
      modifies this
      ensures Valid() && deleted == seq(if sz0 == -1 then |old(deleted)| else sz0, _ => false)
    {
      var sz := if sz0 == -1 then |deleted| else sz0;
      deleted := seq(sz, _ => false);
      nextIndex := seq(sz, i => i) + [-1];
    }

    method Del(index: nat)
      requires Valid() && index < |deleted|
      modifies this`deleted
      ensures Valid() && deleted == old(deleted)[index := true]
    {
      LinksStay(deleted, deleted[index := true], nextIndex);
      deleted := deleted[index := true];
    }

    /** Follows the links from `start` to an index that is not deleted. */
    method Follow(start: nat) returns (pos: int)
      requires Valid() && start <= |deleted|
      ensures pos == NextFrom(deleted, start)
    {
      pos := nextIndex[start];
      assert LinkOk(deleted, nextIndex, start);
      while pos != -1 && deleted[pos]
        invariant pos == -1 || start <= pos < |deleted|
        invariant forall k :: start <= k < (if pos == -1 then |deleted| else pos) ==> deleted[k]
        decreases if pos == -1 then 0 else |deleted| - pos
      {
        assert LinkOk(deleted, nextIndex, pos + 1);
        pos := nextIndex[pos + 1];
      }
      NextIs(deleted, start, pos);
    }

    /** The constructor of the iterator: the first index, and a link straight to it. */
    method Start() returns (pos: int)
      requires Valid()
      modifies this`nextIndex
      ensures Valid() && pos == NextFrom(deleted, 0) && nextIndex == old(nextIndex)[0 := pos]
    {
      pos := Follow(0);
      Shorten(deleted, nextIndex, 0, pos);
      nextIndex := nextIndex[0 := pos];
    }

    /** `next`, from an index that may have been deleted since. */
    method Next(pos0: int) returns (pos: int)
      requires Valid() && -1 <= pos0 < |deleted|
      modifies this`nextIndex
      ensures Valid() && pos == if pos0 == -1 then -1 else NextFrom(deleted, pos0 + 1)
      ensures nextIndex == if pos0 == -1 then old(nextIndex) else old(nextIndex)[pos0 + 1 := pos]
    {
      if pos0 == -1 {
        return -1;
      }
      pos := Follow(pos0 + 1);
      Shorten(deleted, nextIndex, pos0 + 1, pos);
      nextIndex := nextIndex[pos0 + 1 := pos];
    }

    /** `incr_` of the plain iterator. */
    method Incr(pos0: int) returns (pos: int)
      requires -1 <= pos0 <= |deleted|
      ensures pos == if pos0 == -1 then -1 else NextFrom(deleted, pos0)
    {
      pos := pos0;
      if pos == -1 {
        return;
      }
      while pos < |deleted| && deleted[pos]
        invariant pos0 <= pos <= |deleted| && forall k :: pos0 <= k < pos ==> deleted[k]
      {
        pos := pos + 1;
      }
      if pos == |deleted| {
        pos := -1;
      }
      NextIs(deleted, pos0, pos);
    }

    /**
     A whole walk with both iterators, deleting after each index those that `dels` names:
     each visits exactly what is not deleted when it gets there, and they end together.
     */
    method Walk(dels: nat -> set<nat>) returns (visited: seq<nat>, plainly: seq<nat>)
      requires Valid()
      modifies this
      ensures Valid() && |deleted| == |old(deleted)|
      ensures visited == Visits(old(deleted), 0, dels)
      ensures plainly == Visits(old(deleted), 0, dels)
    {
      hide Links, Visits, Deleting, NextFrom;
      visited, plainly := [], [];
      ghost var d0 := deleted;
      SkipDeleted(deleted, 0, dels);
      var pos := Start();
      var plain := Incr(0);
      while pos != -1 || plain != -1
        invariant Valid() && |deleted| == |d0| && pos == plain && visited == plainly && -1 <= pos < |deleted|
        invariant pos != -1 ==> !deleted[pos]
        invariant visited + VisitsFrom(deleted, pos, dels) == Visits(d0, 0, dels)
        decreases if pos == -1 then 0 else |deleted| - pos
      {
        VisitStep(deleted, pos, dels, visited);
        visited, plainly := visited + [pos], plainly + [plain];
        DeleteAll(dels(pos));
        pos := Next(pos);
        plain := Incr(plain + 1);
      }
      assert visited + [] == visited;
    }

    method DeleteAll(which: set<nat>)
      requires Valid()
      modifies this`deleted
      ensures Valid() && deleted == Deleting(old(deleted), which)
    {
      for i := 0 to |deleted|
        invariant Valid() && |deleted| == |old(deleted)|
        invariant forall k :: 0 <= k < |deleted| ==> deleted[k] == (old(deleted)[k] || (k < i && k in which))
      {
        if i in which {
          Del(i);
        }
      }
    }
  }

  function Deleting(deleted: seq<bool>, which: set<nat>): (r: seq<bool>)
    ensures |r| == |deleted|
  {
    seq(|deleted|, k requires 0 <= k < |deleted| => deleted[k] || k in which)
  }

  /** What a walk from `i` on visits when the walker deletes as it goes. */
  function Visits(deleted: seq<bool>, i: nat, dels: nat -> set<nat>): seq<nat>
    requires i <= |deleted|
    decreases |deleted| - i
  {
    if i == |deleted| then []
    else if deleted[i] then Visits(deleted, i + 1, dels)
    else [i] + Visits(Deleting(deleted, dels(i)), i + 1, dels)
  }

  function VisitsFrom(deleted: seq<bool>, pos: int, dels: nat -> set<nat>): seq<nat>
    requires -1 <= pos <= |deleted|
  {
    if pos == -1 then [] else Visits(deleted, pos, dels)
  }

  /** One index is visited, and what is left after its deletions follows. */
  lemma VisitStep(deleted: seq<bool>, pos: nat, dels: nat -> set<nat>, visited: seq<nat>)
    requires pos < |deleted| && !deleted[pos]
    ensures var d := Deleting(deleted, dels(pos));
      visited + Visits(deleted, pos, dels) == visited + [pos] + VisitsFrom(d, NextFrom(d, pos + 1), dels)
  {
    hide Visits, NextFrom, Deleting;
    var d := Deleting(deleted, dels(pos));
    VisitHere(deleted, pos, dels);
    SkipDeleted(d, pos + 1, dels);
    assert visited + ([pos] + Visits(d, pos + 1, dels)) == visited + [pos] + Visits(d, pos + 1, dels);
  }

  lemma VisitHere(deleted: seq<bool>, pos: nat, dels: nat -> set<nat>)
    requires pos < |deleted| && !deleted[pos]
    ensures Visits(deleted, pos, dels) == [pos] + Visits(Deleting(deleted, dels(pos)), pos + 1, dels)
  {
  }

  lemma {:induction false} SkipDeleted(deleted: seq<bool>, i: nat, dels: nat -> set<nat>)
    requires i <= |deleted|
    ensures Visits(deleted, i, dels) == VisitsFrom(deleted, NextFrom(deleted, i), dels)
    decreases |deleted| - i
  {
    if i < |deleted| && deleted[i] {
      SkipDeleted(deleted, i + 1, dels);
    }
  }

  /** A link may be replaced by the one that leads to the same place at once. */
  lemma Shorten(deleted: seq<bool>, next: seq<int>, i: nat, pos: int)
    requires Links(deleted, next) && i < |next| && pos == NextFrom(deleted, i)
    ensures Links(deleted, next[i := pos])
  {
    var next' := next[i := pos];
    forall k | 0 <= k < |next'| ensures LinkOk(deleted, next', k) {
      assert LinkOk(deleted, next, k);
    }
  }
}
