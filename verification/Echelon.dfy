/**
 Row operations on the XOR matrix: swapping lines and adding one line to another
 keep the solutions and the link between reduced and full rows; rows in echelon
 form with no contradictory zero row always have a solution.
 */
module Echelon {
  import opened Rewriting
  import opened PackedRows

  type Lines = seq<Line>

  ghost predicate Wide(ls: Lines, n: nat, width: nat) {
    n <= |ls| && forall r :: 0 <= r < |ls| ==> |ls[r].mat.bits| == |ls[r].vs.bits| == width
  }

  predicate One(ls: Lines, r: nat, c: nat) {
    r < |ls| && c < |ls[r].mat.bits| && ls[r].mat.bits[c]
  }

  /** Each matrix row is its full row reduced by the assignment. */
  ghost predicate Linked(ls: Lines, n: nat, asg: Partial)
    requires Wide(ls, n, |asg|)
  {
    forall r :: 0 <= r < n ==> ls[r].mat == Reduced(ls[r].vs, asg)
  }

  /** `x` solves the full rows. */
  ghost predicate SolvesAll(ls: Lines, n: nat, x: seq<bool>) {
    n <= |ls| && forall r :: 0 <= r < n ==> Solves(ls[r].vs, x)
  }

  ghost predicate SameSolutions(ls: Lines, ls': Lines, n: nat) {
    forall x :: SolvesAll(ls, n, x) <==> SolvesAll(ls', n, x)
  }

  /** Rows before `i` start with a one at strictly increasing columns before `j`; later rows are zero there. */
  ghost predicate InEchelon(ls: Lines, n: nat, i: nat, j: nat, first: seq<nat>) {
    && i <= n <= |ls| && i <= |first|
    && (forall r :: 0 <= r < i ==> first[r] < j && One(ls, r, first[r]))
    && (forall r, k :: 0 <= r < i && 0 <= k < first[r] ==> !One(ls, r, k))
    && (forall r, s :: 0 <= r < s < i ==> first[r] < first[s])
    && (forall r, k :: i <= r < n && 0 <= k < j ==> !One(ls, r, k))
  }

  /** The ones of columns from `j` on lie above a staircase. */
  ghost predicate Stairs(ls: Lines, n: nat, tight: seq<nat>, j: nat) {
    && n <= |ls|
    && (forall c, d :: j <= c <= d < |tight| ==> tight[c] <= tight[d] <= n)
    && (forall c, r, k :: j <= c < |tight| && tight[c] <= r < n && 0 <= k <= c ==> !One(ls, r, k))
  }

  function Swapped(ls: Lines, i: nat, u: nat): (r: Lines)
    requires i < |ls| && u < |ls|
    ensures |r| == |ls|
  {
    ls[i := ls[u]][u := ls[i]]
  }

  // ----- one row operation -----

  lemma SwapKeepsSolutions(ls: Lines, n: nat, i: nat, u: nat)
    requires i < n <= |ls| && u < n
    ensures SameSolutions(ls, Swapped(ls, i, u), n)
  {
    var ls' := Swapped(ls, i, u);
    forall x
      ensures SolvesAll(ls, n, x) <==> SolvesAll(ls', n, x)
    {
      assert ls'[i] == ls[u] && ls'[u] == ls[i];
      if SolvesAll(ls', n, x) {
        forall r | 0 <= r < n ensures Solves(ls[r].vs, x) {
          var s := if r == i then u else if r == u then i else r;
          assert ls'[s] == ls[r];
        }
      }
    }
  }

  lemma XorKeepsSolutions(ls: Lines, n: nat, width: nat, u: nat, i: nat)
    requires Wide(ls, n, width) && i < n && u < n && i != u
    ensures SameSolutions(ls, ls[u := XorBoth(ls[u], ls[i])], n)
  {
    var ls' := ls[u := XorBoth(ls[u], ls[i])];
    forall x
      ensures SolvesAll(ls, n, x) <==> SolvesAll(ls', n, x)
    {
      assert ls'[i] == ls[i];
      if Solves(ls[i].vs, x) {
        XorSolves(ls[u].vs, ls[i].vs, x);
        forall r | 0 <= r < n ensures Solves(ls'[r].vs, x) <==> Solves(ls[r].vs, x) {}
      }
    }
  }

  /** What the elimination keeps about the lines at row `i`, column `j`. */
  ghost predicate Core(ls: Lines, n: nat, asg: Partial, tight: seq<nat>, i: nat, j: nat, first: seq<nat>) {
    && Wide(ls, n, |asg|) && Linked(ls, n, asg)
    && InEchelon(ls, n, i, j, first) && Stairs(ls, n, tight, j)
  }

  lemma SwapCore(ls: Lines, n: nat, asg: Partial, tight: seq<nat>, i: nat, j: nat, first: seq<nat>, u: nat)
    requires Core(ls, n, asg, tight, i, j, first) && j < |tight| && i <= u < tight[j] && i < n
    ensures Core(Swapped(ls, i, u), n, asg, tight, i, j, first)
  {
    var ls' := Swapped(ls, i, u);
    assert tight[j] <= n;
    forall r | 0 <= r < |ls| ensures ls'[r] == if r == i then ls[u] else if r == u then ls[i] else ls[r] {}
    forall r, k | 0 <= r < i && 0 <= k < first[r] ensures !One(ls', r, k) {
      assert !One(ls, r, k);
    }
    forall r, k | i <= r < n && 0 <= k < j ensures !One(ls', r, k) {
      assert !One(ls, r, k) && !One(ls, i, k) && !One(ls, u, k);
    }
    forall c, r, k | j <= c < |tight| && tight[c] <= r < n && 0 <= k <= c
      ensures !One(ls', r, k)
    {
      assert tight[j] <= tight[c];
      assert ls'[r] == ls[r];
      assert !One(ls, r, k);
    }
  }

  lemma XorCore(ls: Lines, n: nat, asg: Partial, tight: seq<nat>, i: nat, j: nat, first: seq<nat>, u: nat)
    requires Core(ls, n, asg, tight, i, j, first) && j < |tight| && i < u < tight[j]
    ensures tight[j] <= n && Core(ls[u := XorBoth(ls[u], ls[i])], n, asg, tight, i, j, first)
    ensures forall k :: 0 <= k < |asg| ==>
      One(ls[u := XorBoth(ls[u], ls[i])], u, k) == (One(ls, u, k) != One(ls, i, k))
  {
    assert tight[j] <= n;
    var ls' := ls[u := XorBoth(ls[u], ls[i])];
    ReducedXor(ls[u].vs, ls[i].vs, asg);
    forall r, k | 0 <= r < i && 0 <= k < first[r] ensures !One(ls', r, k) {
      assert !One(ls, r, k);
    }
    forall r, k | i <= r < n && 0 <= k < j
      ensures !One(ls', r, k)
    {
      assert !One(ls, r, k) && !One(ls, i, k);
    }
    forall c, r, k | j <= c < |tight| && tight[c] <= r < n && 0 <= k <= c
      ensures !One(ls', r, k)
    {
      assert tight[j] <= tight[c];
      assert !One(ls, r, k);
    }
  }

  // ----- one column done -----

  /** Column `j` has no one from row `i` on: it has no pivot. */
  lemma SkipColumn(ls: Lines, n: nat, asg: Partial, tight: seq<nat>, i: nat, j: nat, first: seq<nat>, first': seq<nat>)
    requires Core(ls, n, asg, tight, i, j, first) && forall r :: i <= r < n ==> !One(ls, r, j)
    requires |first'| == |first| && forall r :: 0 <= r < i ==> first'[r] == first[r]
    ensures Core(ls, n, asg, tight, i, j + 1, first')
  {
    StairsLater(ls, n, tight, j);
  }

  lemma StairsLater(ls: Lines, n: nat, tight: seq<nat>, j: nat)
    requires Stairs(ls, n, tight, j)
    ensures Stairs(ls, n, tight, j + 1)
  {
  }

  /** Row `i` starts at column `j`, and no later row has a one there. */
  lemma PivotColumn(ls: Lines, n: nat, asg: Partial, tight: seq<nat>, i: nat, j: nat, first: seq<nat>)
    requires Core(ls, n, asg, tight, i, j, first) && i < n && i < |first| && One(ls, i, j)
    requires forall r :: i < r < n ==> !One(ls, r, j)
    ensures Core(ls, n, asg, tight, i + 1, j + 1, first[i := j])
  {
    var first' := first[i := j];
    StairsLater(ls, n, tight, j);
    forall r, k | 0 <= r < i + 1 && 0 <= k < first'[r]
      ensures !One(ls, r, k)
    {
    }
  }

  // ----- what echelon form says about solutions -----

  ghost predicate ZeroRow(l: Line) {
    forall k :: 0 <= k < |l.mat.bits| ==> !l.mat.bits[k]
  }

  /** `x` solves the reduced rows from `r` to `i`. */
  ghost predicate SolvesReduced(ls: Lines, r: nat, i: nat, x: seq<bool>)
    requires i <= |ls|
  {
    forall s :: r <= s < i ==> Solves(ls[s].mat, x)
  }

  /** Setting the first column of row `r` can make row `r` true without touching later rows. */
  lemma SolveOneRow(ls: Lines, n: nat, asg: Partial, i: nat, j: nat, first: seq<nat>, r: nat, x: seq<bool>)
    returns (x': seq<bool>)
    requires Wide(ls, n, |asg|) && Linked(ls, n, asg) && InEchelon(ls, n, i, j, first) && r < i
    requires Completes(x, asg) && SolvesReduced(ls, r + 1, i, x)
    ensures Completes(x', asg) && SolvesReduced(ls, r, i, x')
  {
    var c := first[r];
    assert One(ls, r, c);
    assert asg[c] == None;
    if Solves(ls[r].mat, x) {
      x' := x;
    } else {
      x' := x[c := !x[c]];
      DotSet(ls[r].mat.bits, x, c, !x[c]);
      forall s | r + 1 <= s < i
        ensures Solves(ls[s].mat, x')
      {
        assert first[r] < first[s];
        assert !One(ls, s, c);
        DotSet(ls[s].mat.bits, x, c, !x[c]);
      }
    }
  }

  lemma {:induction false} BackSubstitute(ls: Lines, n: nat, asg: Partial, i: nat, j: nat, first: seq<nat>, r: nat)
    returns (x: seq<bool>)
    requires Wide(ls, n, |asg|) && Linked(ls, n, asg) && InEchelon(ls, n, i, j, first) && r <= i
    ensures Completes(x, asg) && SolvesReduced(ls, r, i, x)
    decreases i - r
  {
    if r == i {
      x := Known(asg);
      forall k | 0 <= k < |asg| && asg[k] != None ensures asg[k] == Some(x[k]) {
        OptionCases(asg[k], true);
      }
    } else {
      x := BackSubstitute(ls, n, asg, i, j, first, r + 1);
      x := SolveOneRow(ls, n, asg, i, j, first, r, x);
    }
  }

  lemma ReducedAll(ls: Lines, n: nat, asg: Partial, x: seq<bool>)
    requires Wide(ls, n, |asg|) && Linked(ls, n, asg) && Completes(x, asg)
    ensures SolvesAll(ls, n, x) <==> SolvesReduced(ls, 0, n, x)
  {
    forall r | 0 <= r < n
      ensures Solves(ls[r].mat, x) <==> Solves(ls[r].vs, x)
    {
      ReducedSolves(ls[r].vs, asg, x);
    }
  }

  ghost predicate Consistent(ls: Lines, n: nat, asg: Partial) {
    exists x :: Completes(x, asg) && SolvesAll(ls, n, x)
  }

  ghost predicate FalseRow(ls: Lines, r: nat) {
    r < |ls| && ls[r].mat.isTrue
  }

  /** Under the assignment the system is inconsistent exactly if some zero row has a true right-hand side. */
  lemma InconsistentIff(ls: Lines, n: nat, asg: Partial, i: nat, j: nat, first: seq<nat>)
    requires Wide(ls, n, |asg|) && Linked(ls, n, asg) && InEchelon(ls, n, i, j, first)
    requires forall r :: i <= r < n ==> ZeroRow(ls[r])
    ensures Consistent(ls, n, asg) <==> forall r :: i <= r < n ==> !FalseRow(ls, r)
  {
    if Consistent(ls, n, asg) {
      var x :| Completes(x, asg) && SolvesAll(ls, n, x);
      ReducedAll(ls, n, asg, x);
      forall r | i <= r < n ensures !FalseRow(ls, r) {
        DotZero(ls[r].mat.bits, x);
      }
    }
    if forall r :: i <= r < n ==> !FalseRow(ls, r) {
      var x := BackSubstitute(ls, n, asg, i, j, first, 0);
      forall r | i <= r < n ensures Solves(ls[r].mat, x) {
        assert !FalseRow(ls, r);
        DotZero(ls[r].mat.bits, x);
      }
      ReducedAll(ls, n, asg, x);
    }
  }

  /** Zero rows with a false right-hand side say nothing under the assignment. */
  lemma DropZeroRows(ls: Lines, n: nat, i: nat, asg: Partial, x: seq<bool>)
    requires Wide(ls, n, |asg|) && Linked(ls, n, asg) && i <= n && Completes(x, asg)
    requires forall r :: i <= r < n ==> ZeroRow(ls[r]) && !FalseRow(ls, r)
    ensures SolvesAll(ls, i, x) <==> SolvesAll(ls, n, x)
  {
    forall r | i <= r < n
      ensures Solves(ls[r].vs, x)
    {
      assert ZeroRow(ls[r]) && !FalseRow(ls, r);
      DotZero(ls[r].mat.bits, x);
      ReducedSolves(ls[r].vs, asg, x);
    }
  }

  /** Column `c` is the only one of row `r`. */
  ghost predicate Single(ls: Lines, r: nat, c: nat) {
    One(ls, r, c) && forall k :: One(ls, r, k) ==> k == c
  }

  /** A row with a single one gives its column the value of the right-hand side in every solution. */
  lemma SingleForces(ls: Lines, n: nat, asg: Partial, r: nat, c: nat, x: seq<bool>)
    requires Wide(ls, n, |asg|) && Linked(ls, n, asg) && r < n && Single(ls, r, c)
    requires Completes(x, asg) && SolvesAll(ls, n, x)
    ensures x[c] == ls[r].mat.isTrue
  {
    ReducedSolves(ls[r].vs, asg, x);
    var bits := ls[r].mat.bits;
    var off := x[c := false];
    DotSet(bits, off, c, x[c]);
    assert off[c := x[c]] == x;
    forall k | 0 <= k < |bits| ensures !(bits[k] && off[k]) {
      if k != c {
        assert !One(ls, r, k);
      }
    }
    DotZero(bits, off);
  }
}
