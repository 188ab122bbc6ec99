/**
 The packed rows of the XOR matrix: a line holds a matrix row, reduced by the
 current assignment, and next to it the row over all variables it stands for.
 Rows are linear equations over bits; reducing is linear too.
 */
module PackedRows {
  import opened Rewriting

  /** The equation: the sum of the columns whose bit is on equals `isTrue`. */
  datatype Row = Row(bits: seq<bool>, isTrue: bool)

  datatype Line = Line(mat: Row, vs: Row)

  /** The number of bits of a packed word. */
  const WORD: nat := 64

  function XorBits(a: seq<bool>, b: seq<bool>): (r: seq<bool>)
    requires |a| == |b|
    ensures |r| == |a| && forall k :: 0 <= k < |r| ==> r[k] == (a[k] != b[k])
  {
    seq(|a|, k requires 0 <= k < |a| => a[k] != b[k])
  }

  function XorRow(a: Row, b: Row): Row
    requires |a.bits| == |b.bits|
  {
    Row(XorBits(a.bits, b.bits), a.isTrue != b.isTrue)
  }

  /** `xorBoth`: the matrix rows and the rows over all variables together. */
  function XorBoth(a: Line, b: Line): Line
    requires |a.mat.bits| == |b.mat.bits| && |a.vs.bits| == |b.vs.bits|
  {
    Line(XorRow(a.mat, b.mat), XorRow(a.vs, b.vs))
  }

  function Dot(bits: seq<bool>, x: seq<bool>): bool
    requires |bits| == |x|
  {
    if bits == [] then false
    else Dot(bits[..|bits| - 1], x[..|x| - 1]) != (bits[|bits| - 1] && x[|x| - 1])
  }

  predicate Solves(r: Row, x: seq<bool>) {
    |x| == |r.bits| && Dot(r.bits, x) == r.isTrue
  }

  lemma {:induction false} DotXor(a: seq<bool>, b: seq<bool>, x: seq<bool>)
    requires |a| == |b| == |x|
    ensures Dot(XorBits(a, b), x) == (Dot(a, x) != Dot(b, x))
  {
    if a != [] {
      var n := |a| - 1;
      assert XorBits(a, b)[..n] == XorBits(a[..n], b[..n]);
      DotXor(a[..n], b[..n], x[..n]);
    }
  }

  lemma {:induction false} DotZero(a: seq<bool>, x: seq<bool>)
    requires |a| == |x| && forall k :: 0 <= k < |a| ==> !(a[k] && x[k])
    ensures !Dot(a, x)
  {
    if a != [] {
      DotZero(a[..|a| - 1], x[..|x| - 1]);
    }
  }

  /** Changing one value of `x` matters exactly if its bit is on. */
  lemma {:induction false} DotSet(a: seq<bool>, x: seq<bool>, c: nat, v: bool)
    requires |a| == |x| && c < |a|
    ensures Dot(a, x[c := v]) == (Dot(a, x) != (a[c] && v != x[c]))
  {
    var n := |a| - 1;
    if c == n {
      assert x[c := v][..n] == x[..n];
    } else {
      assert x[c := v][..n] == x[..n][c := v];
      DotSet(a[..n], x[..n], c, v);
    }
  }

  /** Adding one equation to another keeps what they say together. */
  lemma XorSolves(a: Row, b: Row, x: seq<bool>)
    requires |a.bits| == |b.bits| && Solves(b, x)
    ensures Solves(XorRow(a, b), x) <==> Solves(a, x)
  {
    if |x| == |a.bits| {
      DotXor(a.bits, b.bits, x);
    }
  }

  // ----- reduction by an assignment of columns -----

  function Known(asg: Partial): (k: seq<bool>)
    ensures |k| == |asg|
  {
    seq(|asg|, i requires 0 <= i < |asg| => asg[i] == Some(true))
  }

  function Unset(bits: seq<bool>, asg: Partial): (r: seq<bool>)
    requires |bits| == |asg|
    ensures |r| == |bits|
  {
    seq(|bits|, i requires 0 <= i < |bits| => bits[i] && asg[i] == None)
  }

  /** The equation with the values of the set columns put in. */
  function Reduced(r: Row, asg: Partial): Row
    requires |r.bits| == |asg|
  {
    Row(Unset(r.bits, asg), r.isTrue != Dot(r.bits, Known(asg)))
  }

  predicate Completes(x: seq<bool>, asg: Partial) {
    |x| == |asg| && forall i :: 0 <= i < |asg| && asg[i] != None ==> asg[i] == Some(x[i])
  }

  lemma ReducedXor(a: Row, b: Row, asg: Partial)
    requires |a.bits| == |b.bits| == |asg|
    ensures Reduced(XorRow(a, b), asg) == XorRow(Reduced(a, asg), Reduced(b, asg))
  {
    DotXor(a.bits, b.bits, Known(asg));
    assert Unset(XorBits(a.bits, b.bits), asg) == XorBits(Unset(a.bits, asg), Unset(b.bits, asg));
  }

  lemma {:induction false} DotUnset(bits: seq<bool>, asg: Partial, x: seq<bool>)
    requires |bits| == |asg| && Completes(x, asg)
    ensures Dot(bits, x) == (Dot(Unset(bits, asg), x) != Dot(bits, Known(asg)))
  {
    if bits != [] {
      var n := |bits| - 1;
      assert Unset(bits, asg)[..n] == Unset(bits[..n], asg[..n]);
      assert Known(asg)[..n] == Known(asg[..n]);
      DotUnset(bits[..n], asg[..n], x[..n]);
      OptionCases(asg[n], x[n]);
    }
  }

  /** For values that complete the assignment, the reduced equation says the same. */
  lemma ReducedSolves(r: Row, asg: Partial, x: seq<bool>)
    requires |r.bits| == |asg| && Completes(x, asg)
    ensures Solves(Reduced(r, asg), x) <==> Solves(r, x)
  {
    DotUnset(r.bits, asg, x);
  }

  /** What setting one more column does to a reduced row: the bit goes, a true value flips the sum. */
  function SetColumn(r: Row, c: nat, v: bool): Row
    requires c < |r.bits|
  {
    Row(r.bits[c := false], r.isTrue != (r.bits[c] && v))
  }

  lemma ReducedSet(r: Row, asg: Partial, c: nat, v: bool)
    requires |r.bits| == |asg| && c < |asg| && asg[c] == None
    ensures Reduced(r, asg[c := Some(v)]) == SetColumn(Reduced(r, asg), c, v)
  {
    var asg' := asg[c := Some(v)];
    assert Known(asg') == Known(asg)[c := v];
    DotSet(r.bits, Known(asg), c, v);
    assert Unset(r.bits, asg') == Unset(r.bits, asg)[c := false];
  }

  // ----- popcnt_is_one -----

  ghost predicate ZeroFrom(bits: seq<bool>, c: nat) {
    forall k :: c <= k < |bits| ==> !bits[k]
  }

  /** The words from the matrix row on, as they lie in memory: its bits, the other row's sum, its bits. */
  function Memory(l: Line): (m: seq<bool>)
    ensures |m| == |l.mat.bits| + WORD + |l.vs.bits|
  {
    l.mat.bits + [l.vs.isTrue] + seq(WORD - 1, _ => false) + l.vs.bits
  }

  /** The word at `w` is not 0, or for `shift`, is not 0 after shifting it right. */
  method WordNonZero(m: seq<bool>, w: nat, shift: nat) returns (r: bool)
    requires WORD * (w + 1) <= |m| && shift < WORD
    ensures r <==> exists k :: WORD * w + shift <= k < WORD * (w + 1) && m[k]
  {
    var i := WORD * w + shift;
    while i < WORD * (w + 1)
      invariant WORD * w + shift <= i <= WORD * (w + 1)
      invariant forall k :: WORD * w + shift <= k < i ==> !m[k]
    {
      if m[i] {
        return true;
      }
      i := i + 1;
    }
    r := false;
  }

  /**
   `popcnt_is_one(from)`, called for a row whose first one is at `from`.  It
   answers whether nothing follows, except that for the last bit of the last word
   it starts reading behind the row and answers no.
   */
  method PopcntIsOne(l: Line, size: nat, from: nat) returns (r: bool)
    requires |l.mat.bits| == |l.vs.bits| == WORD * size && from < WORD * size
    requires exists k :: 0 <= k < |l.vs.bits| && l.vs.bits[k]
    ensures r <==> from + 1 < WORD * size && ZeroFrom(l.mat.bits, from + 1)
  {
    var m := Memory(l);
    var start := from + 1;
    var w, shift := start / WORD, start % WORD;
    assert start == WORD * w + shift;
    assert forall k :: 0 <= k < |l.mat.bits| ==> m[k] == l.mat.bits[k];
    var nz := WordNonZero(m, w, shift);
    if nz {
      return false;
    }
    var i := w + 1;
    ghost var one := SecondRowOne(l, size);
    while i != size
      invariant w < i && (w < size ==> i <= size) && (w == size ==> WORD * i <= one < |m|)
      invariant forall k :: start <= k < WORD * i ==> !m[k]
      decreases 2 * size + 2 - i
    {
      nz := WordNonZero(m, i, 0);
      if nz {
        return false;
      }
      i := i + 1;
    }
    r := true;
  }

  /** Where the row over all variables has a one, as a place in memory. */
  lemma SecondRowOne(l: Line, size: nat) returns (k: nat)
    requires |l.mat.bits| == |l.vs.bits| == WORD * size
    requires exists k :: 0 <= k < |l.vs.bits| && l.vs.bits[k]
    ensures WORD * (size + 1) <= k < |Memory(l)| && Memory(l)[k]
  {
    var j :| 0 <= j < |l.vs.bits| && l.vs.bits[j];
    k := WORD * (size + 1) + j;
  }
}
