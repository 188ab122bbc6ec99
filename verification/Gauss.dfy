/**
 `Gaussian`: the XOR matrix in the solver.  The matrix is brought up to date with
 the assignment column by column and eliminated, either from scratch or from the
 least column that changed since it was last in echelon form.
 */
module Gauss {
  import opened Rewriting
  import opened PackedRows
  import opened Echelon

  const INT_MAX: int := 0x7fff_ffff

  ghost predicate Active(colToVar: seq<Option<nat>>, c: nat) {
    c < |colToVar| && colToVar[c].Some?
  }

  /** The first `i` rows have their pivots counted: `tight[c]` of them are at column `c` or before. */
  ghost predicate Counted(tight: seq<nat>, first: seq<nat>, i: nat, j: nat) {
    && i <= |first| && j <= |tight|
    && (forall c :: 0 <= c < j ==> tight[c] <= i)
    && (forall c, r :: 0 <= c < j && 0 <= r < i ==> (first[r] <= c <==> r < tight[c]))
  }

  ghost predicate HasPivot(tight: seq<nat>, first: seq<nat>, c: nat) {
    c < |tight| && 0 < tight[c] <= |first| && first[tight[c] - 1] == c
  }

  /** `last_one_in_col` after elimination: the row after the pivot, or one more than the rows before. */
  ghost predicate LastAt(tight: seq<nat>, first: seq<nat>, last: seq<nat>, n: nat, c: nat)
    requires c < |tight| && c < |last|
  {
    if HasPivot(tight, first, c) then last[c] == tight[c]
    else last[c] == tight[c] + 1 || (tight[c] == n && last[c] == n)
  }

  ghost predicate LastExact(
    colToVar: seq<Option<nat>>, tight: seq<nat>, first: seq<nat>, last: seq<nat>, n: nat, j: nat) {
    && j <= |tight| && j <= |last|
    && forall c :: 0 <= c < j && Active(colToVar, c) ==> LastAt(tight, first, last, n, c)
  }

  ghost predicate LastCovers(tight: seq<nat>, last: seq<nat>, j: nat) {
    j <= |tight| && j <= |last| && forall c :: 0 <= c < j ==> tight[c] <= last[c]
  }

  ghost predicate LastWithin(colToVar: seq<Option<nat>>, last: seq<nat>, n: nat) {
    forall c :: 0 <= c < |last| && Active(colToVar, c) ==> last[c] <= n
  }

  /** Which columns are set, and that columns beyond the last are set to 0. */
  ghost predicate ColumnsLinked(colToVar: seq<Option<nat>>, vars: seq<nat>, numCols: nat, asg: Partial) {
    && numCols <= |colToVar| == |vars| <= |asg|
    && (forall c :: 0 <= c < |vars| ==> colToVar[c] == if asg[c] == None then Some(vars[c]) else None)
    && (forall c :: numCols <= c < |asg| ==> asg[c] != None)
    && (forall c :: |vars| <= c < |asg| ==> asg[c] == Some(false))
  }

  lemma InactiveZero(ls: Lines, n: nat, asg: Partial, r: nat, c: nat)
    requires Wide(ls, n, |asg|) && Linked(ls, n, asg) && r < n && c < |asg| && asg[c] != None
    ensures !One(ls, r, c)
  {
  }

  class Gaussian {
    const size: nat
    const colToVarOriginal: seq<nat>
    const iterativeReduce: bool
    var lines: Lines
    var numRows: nat
    var numCols: nat
    var colToVar: seq<Option<nat>>
    var leastColumnChanged: int
    var lastOneInCol: seq<nat>
    var firstOneInRow: seq<nat>
    var changedRows: seq<bool>
    var propagatableRows: seq<nat>
    /** The values put into the matrix, by column. */
    ghost var asg: Partial
    /** No row from `tight[c]` on has a one at column `c` or before. */
    ghost var tight: seq<nat>

    ghost predicate Shape()
      reads this
    {
      && |asg| == WORD * size && |colToVarOriginal| == |lastOneInCol| == |tight| < INT_MAX
      && numRows <= |firstOneInRow| == |changedRows|
      && Wide(lines, numRows, |asg|) && Linked(lines, numRows, asg)
      && ColumnsLinked(colToVar, colToVarOriginal, numCols, asg)
      && Stairs(lines, numRows, tight, 0) && LastCovers(tight, lastOneInCol, |tight|)
    }

    /** In echelon form since the last elimination. */
    ghost predicate Settled()
      reads this
    {
      && leastColumnChanged == INT_MAX
      && InEchelon(lines, numRows, numRows, |tight|, firstOneInRow)
      && Counted(tight, firstOneInRow, numRows, |tight|)
      && LastExact(colToVar, tight, firstOneInRow, lastOneInCol, numRows, |tight|)
    }

    /** Between calls: just filled, or settled. */
    ghost predicate Ready()
      reads this
    {
      Shape() && numRows > 0 && ((leastColumnChanged == -1 && LastWithin(colToVar, lastOneInCol, numRows)) || Settled())
    }

    /** `fill_matrix`, given the column order. */
    constructor (rows: seq<Row>, vars: seq<nat>, words: nat, iterative: bool)
      requires |rows| > 0 && |vars| <= WORD * words && |vars| < INT_MAX
      requires forall r :: r in rows ==> |r.bits| == WORD * words && ZeroFrom(r.bits, |vars|)
      ensures Ready() && leastColumnChanged == -1 && numRows == |rows|
      ensures forall x :: SolvesAll(lines, numRows, x) <==> forall r :: r in rows ==> Solves(r, x)
      ensures forall c :: 0 <= c < |asg| ==> asg[c] == if c < |vars| then None else Some(false)
    {
      size, colToVarOriginal, iterativeReduce := words, vars, iterative;
      lines := seq(|rows|, r requires 0 <= r < |rows| => Line(rows[r], rows[r]));
      numRows, numCols := |rows|, |vars|;
      colToVar := seq(|vars|, c requires 0 <= c < |vars| => Some(vars[c]));
      leastColumnChanged := -1;
      lastOneInCol := seq(|vars|, _ => |rows|);
      firstOneInRow := seq(|rows|, _ => 0);
      changedRows := seq(|rows|, _ => false);
      propagatableRows := [];
      asg := seq(WORD * words, c => if c < |vars| then None else Some(false));
      tight := seq(|vars|, _ => |rows|);
      new;
      forall r | 0 <= r < |rows|
        ensures lines[r].mat == Reduced(lines[r].vs, asg)
      {
        assert rows[r] in rows;
        FreshReduced(rows[r], |vars|, asg);
      }
      forall x
        ensures SolvesAll(lines, numRows, x) <==> forall r :: r in rows ==> Solves(r, x)
      {
        if SolvesAll(lines, numRows, x) {
          forall r | r in rows ensures Solves(r, x) {
            var k :| 0 <= k < |rows| && rows[k] == r;
            assert lines[k].vs == r;
          }
        }
      }
    }

    /** `update_last_one_in_col`: clips the entries at the end that exceed the number of rows. */
    method UpdateLastOneInCol()
      requires Ready()
      modifies this`lastOneInCol
      ensures Ready() && LastWithin(colToVar, lastOneInCol, numRows)
    {
      hide InEchelon, Counted, LastExact, Wide, Linked, ColumnsLinked;
      ghost var last0, wasSettled := lastOneInCol, Settled();
      var i := |lastOneInCol|;
      while i != 0 && lastOneInCol[i - 1] >= numRows
        invariant 0 <= i <= |lastOneInCol| == |last0|
        invariant forall c :: 0 <= c < i ==> lastOneInCol[c] == last0[c]
        invariant forall c :: i <= c < |last0| ==> last0[c] >= numRows && lastOneInCol[c] == numRows
      {
        i := i - 1;
        lastOneInCol := lastOneInCol[i := numRows];
      }
      if wasSettled {
        ClipKeeps(colToVar, tight, firstOneInRow, last0, lastOneInCol, numRows, i);
      }
    }

    /** `update_matrix_col`: takes the column of a variable that has got a value out of the matrix. */
    method UpdateMatrixCol(col: nat, val: bool)
      requires Shape() && LastWithin(colToVar, lastOneInCol, numRows)
      requires col < numCols && Active(colToVar, col)
      modifies this`lines, this`changedRows, this`leastColumnChanged, this`colToVar, this`asg
      ensures Shape() && LastWithin(colToVar, lastOneInCol, numRows)
      ensures asg == old(asg)[col := Some(val)]
      ensures leastColumnChanged == if old(leastColumnChanged) < col then old(leastColumnChanged) else col
      ensures TakenOut(old(lines), lines, numRows, col)
      ensures forall r :: 0 <= r < numRows ==> (changedRows[r] <==> old(changedRows)[r] || One(old(lines), r, col))
    {
      ReadyToTake(col);
      hide Shape, LastWithin, TakenOut;
      if col < leastColumnChanged {
        leastColumnChanged := col;
      }
      ghost var ls0 := lines;
      ClearColumn(lastOneInCol[col], col, val);
      colToVar := colToVar[col := None];
      asg := asg[col := Some(val)];
      ColumnTaken(ls0, lines, numRows, old(asg), col, val, lastOneInCol[col], tight);
      Taken(old(asg), old(colToVar), col, val);
    }

    lemma ReadyToTake(col: nat)
      requires Shape() && LastWithin(colToVar, lastOneInCol, numRows) && col < numCols && Active(colToVar, col)
      ensures |colToVar| == |lastOneInCol| == |tight| <= |asg| && col < |colToVar|
      ensures asg[col] == None && tight[col] <= lastOneInCol[col] <= numRows <= |changedRows| && numRows <= |lines|
      ensures Wide(lines, numRows, |asg|) && Linked(lines, numRows, asg) && Stairs(lines, numRows, tight, 0)
      ensures ColumnsLinked(colToVar, colToVarOriginal, numCols, asg)
      ensures LastWithin(colToVar[col := None], lastOneInCol, numRows)
      ensures forall r :: lastOneInCol[col] <= r < numRows ==> !One(lines, r, col)
    {
    }

    /** The rest of `Shape()` after a column was taken out. */
    lemma Taken(asg0: Partial, colToVar0: seq<Option<nat>>, col: nat, val: bool)
      requires ColumnsLinked(colToVar0, colToVarOriginal, numCols, asg0) && col < |colToVar0|
      requires colToVar == colToVar0[col := None] && asg == asg0[col := Some(val)]
      requires |asg| == WORD * size && |colToVarOriginal| == |lastOneInCol| == |tight| < INT_MAX
      requires numRows <= |firstOneInRow| == |changedRows|
      requires Wide(lines, numRows, |asg|) && Linked(lines, numRows, asg) && Stairs(lines, numRows, tight, 0)
      requires LastCovers(tight, lastOneInCol, |tight|)
      ensures Shape()
    {
    }

    /** The loop of `update_matrix_col` over the rows that may have a one. */
    method ClearColumn(end: nat, col: nat, val: bool)
      requires Wide(lines, end, WORD * size) && col < WORD * size && end <= |changedRows|
      modifies this`lines, this`changedRows
      ensures |lines| == |old(lines)| && |changedRows| == |old(changedRows)|
      ensures forall r :: 0 <= r < end ==> lines[r] == Line(SetColumn(old(lines)[r].mat, col, val), old(lines)[r].vs)
      ensures forall r :: end <= r < |lines| ==> lines[r] == old(lines)[r]
      ensures forall r :: 0 <= r < end ==> (changedRows[r] <==> old(changedRows)[r] || One(old(lines), r, col))
      ensures forall r :: end <= r < |changedRows| ==> changedRows[r] == old(changedRows)[r]
    {
      var row := 0;
      while row != end
        invariant 0 <= row <= end && |lines| == |old(lines)| && |changedRows| == |old(changedRows)|
        invariant forall r :: 0 <= r < row ==>
          lines[r] == Line(SetColumn(old(lines)[r].mat, col, val), old(lines)[r].vs)
        invariant forall r :: row <= r < |lines| ==> lines[r] == old(lines)[r]
        invariant forall r :: 0 <= r < row ==> (changedRows[r] <==> old(changedRows)[r] || One(old(lines), r, col))
        invariant forall r :: row <= r < |changedRows| ==> changedRows[r] == old(changedRows)[r]
      {
        var m := lines[row].mat;
        if m.bits[col] {
          changedRows := changedRows[row := true];
          var flipped := if val then m.(isTrue := !m.isTrue) else m;
          lines := lines[row := Line(flipped.(bits := m.bits[col := false]), lines[row].vs)];
        } else {
          assert m.bits[col := false] == m.bits;
        }
        row := row + 1;
      }
    }

    /** `update_matrix_by_col_all`: takes out every column whose variable now has a value. */
    method UpdateMatrixByColAll(assigns: Partial)
      requires Shape() && LastWithin(colToVar, lastOneInCol, numRows)
      requires forall v :: v in colToVarOriginal ==> v < |assigns|
      modifies this`lines, this`changedRows, this`leastColumnChanged, this`colToVar, this`asg, this`numCols
      ensures Shape() && LastWithin(colToVar, lastOneInCol, numRows)
      ensures asg == Extended(old(asg), colToVarOriginal, assigns)
      ensures Reduction(old(lines), lines, numRows, asg)
      ensures LeastChanged(old(leastColumnChanged), leastColumnChanged, old(asg), asg)
      ensures forall r :: 0 <= r < numRows ==> (changedRows[r] <==> Touched(old(lines), r, asg))
      ensures TailGone(old(asg), asg, old(numCols), numCols)
    {
      hide UpTo, Reduction, LastWithin, Wide, Linked, Stairs, LastCovers, Touched, LeastChanged, ColumnsLinked;
      hide TailGone, Extended;
      ghost var ls0, asg0, least0 := lines, asg, leastColumnChanged;
      changedRows := seq(|changedRows|, _ => false);
      StartUpdate(ls0, numRows, asg0, colToVarOriginal, assigns, least0, changedRows);
      TailStart(asg);
      LinkedSizes(colToVar, colToVarOriginal, numCols, asg);
      var last, col := 0, 0;
      while col != numCols
        invariant 0 <= col <= numCols <= |asg| && last <= col
        invariant Shape() && LastWithin(colToVar, lastOneInCol, numRows)
        invariant UpTo(
          ls0, lines, numRows, asg0, asg, colToVarOriginal, assigns, least0, leastColumnChanged, changedRows, col)
        invariant forall c :: col - last <= c < col ==> asg[c] != None
        invariant TailGone(asg0, asg, col, col - last) && forall c :: col <= c < |asg| ==> asg[c] == asg0[c]
        modifies this`lines, this`changedRows, this`leastColumnChanged, this`colToVar, this`asg
      {
        ghost var asg1 := asg;
        var isSet := UpdateColumn(col, assigns, ls0, asg0, least0);
        TailGrows(asg0, asg1, asg, col, col - last, isSet);
        last := if isSet then last + 1 else 0;
        col := col + 1;
      }
      LinkedBeyond(colToVar, colToVarOriginal, numCols, asg, last);
      UpToSame(ls0, lines, numRows, asg0, asg, colToVarOriginal, assigns, least0, leastColumnChanged, changedRows,
        numCols);
      numCols := numCols - last;
    }

    /** One column: if its variable has got a value, it is taken out of the matrix. */
    method UpdateColumn(col: nat, assigns: Partial, ghost ls0: Lines, ghost asg0: Partial, ghost least0: int)
      returns (isSet: bool)
      requires Shape() && LastWithin(colToVar, lastOneInCol, numRows) && col < numCols <= |asg|
      requires forall v :: v in colToVarOriginal ==> v < |assigns|
      requires UpTo(
        ls0, lines, numRows, asg0, asg, colToVarOriginal, assigns, least0, leastColumnChanged, changedRows, col)
      modifies this`lines, this`changedRows, this`leastColumnChanged, this`colToVar, this`asg
      ensures Shape() && LastWithin(colToVar, lastOneInCol, numRows)
      ensures UpTo(
        ls0, lines, numRows, asg0, asg, colToVarOriginal, assigns, least0, leastColumnChanged, changedRows, col + 1)
      ensures |asg| == |old(asg)| && forall c :: 0 <= c < |asg| && c != col ==> asg[c] == old(asg)[c]
      ensures isSet ==> asg[col] != None
      ensures isSet <==> asg[col] != old(asg)[col]
    {
      hide UpTo, Reduction, LastWithin, Wide, Linked, Stairs, LastCovers;
      ColumnState(col, assigns);
      isSet := colToVar[col].Some? && assigns[colToVar[col].value].Some?;
      if isSet {
        var val := assigns[colToVar[col].value].value;
        ghost var ls1, asg1, least1, chg1 := lines, asg, leastColumnChanged, changedRows;
        UpdateMatrixCol(col, val);
        UpToSet(ls0, ls1, lines, numRows, asg0, asg1, asg, colToVarOriginal, assigns, least0, least1,
          leastColumnChanged, chg1, changedRows, col, val);
      } else {
        UpToSkip(ls0, lines, numRows, asg0, asg, colToVarOriginal, assigns, least0, leastColumnChanged, changedRows,
          col);
      }
    }

    lemma ColumnState(col: nat, assigns: Partial)
      requires Shape() && col < numCols && forall v :: v in colToVarOriginal ==> v < |assigns|
      ensures numCols <= |colToVar| == |colToVarOriginal| <= |asg| && colToVarOriginal[col] < |assigns|
      ensures colToVar[col] == if asg[col] == None then Some(colToVarOriginal[col]) else None
    {
      assert colToVarOriginal[col] in colToVarOriginal;
    }

    /** The first row from `i` on with a one in column `j`, or the end of the search range. */
    method FindPivot(i: nat, j: nat) returns (u: nat)
      requires j < |lastOneInCol| && i <= lastOneInCol[j] <= |lines|
      requires forall r :: i <= r < lastOneInCol[j] ==> j < |lines[r].mat.bits|
      ensures i <= u <= lastOneInCol[j]
      ensures u < lastOneInCol[j] ==> One(lines, u, j)
      ensures forall r :: i <= r < u ==> !One(lines, r, j)
    {
      u := i;
      while u != lastOneInCol[j]
        invariant i <= u <= lastOneInCol[j] && forall r :: i <= r < u ==> !One(lines, r, j)
      {
        if lines[u].mat.bits[j] {
          break;
        }
        u := u + 1;
      }
    }

    /** Adds row `i` to the rows after `u`, in the search range, that have a one in column `j`. */
    method ClearBelow(u: nat, i: nat, j: nat)
      requires Core(lines, numRows, asg, tight, i, j, firstOneInRow)
      requires j < |tight| && j < |asg| && j < |lastOneInCol| && i <= u < tight[j] <= lastOneInCol[j] <= numRows
      requires One(lines, i, j) && forall r :: i < r <= u ==> !One(lines, r, j)
      modifies this`lines
      ensures Core(lines, numRows, asg, tight, i, j, firstOneInRow)
      ensures SameSolutions(old(lines), lines, numRows)
      ensures |lines| == |old(lines)| && forall r :: 0 <= r <= i ==> lines[r] == old(lines)[r]
      ensures forall r :: i < r < numRows ==> !One(lines, r, j)
    {
      hide SameSolutions, Linked, Stairs, InEchelon;
      SolutionsRefl(lines, numRows);
      var v := u + 1;
      while v != lastOneInCol[j]
        invariant u < v <= lastOneInCol[j]
        invariant Core(lines, numRows, asg, tight, i, j, firstOneInRow)
        invariant SameSolutions(old(lines), lines, numRows)
        invariant |lines| == |old(lines)| && forall r :: 0 <= r <= i ==> lines[r] == old(lines)[r]
        invariant One(lines, i, j) && forall r :: i < r < v ==> !One(lines, r, j)
      {
        if lines[v].mat.bits[j] {
          RowOnStairs(v, j);
          XorCore(lines, numRows, asg, tight, i, j, firstOneInRow, v);
          XorKeepsSolutions(lines, numRows, |asg|, v, i);
          ghost var next := lines[v := XorBoth(lines[v], lines[i])];
          SolutionsTrans(old(lines), lines, next, numRows);
          assert !One(next, v, j);
          forall r | i < r < v ensures !One(next, r, j) {
            assert !One(lines, r, j) && next[r] == lines[r];
          }
          lines := lines[v := XorBoth(lines[v], lines[i])];
        }
        v := v + 1;
      }
      forall r | i < r < numRows ensures !One(lines, r, j) {
        if r >= v && One(lines, r, j) {
          RowOnStairs(r, j);
        }
      }
    }

    lemma RowOnStairs(r: nat, j: nat)
      requires Stairs(lines, numRows, tight, j) && j < |tight| && r < numRows && One(lines, r, j)
      ensures r < tight[j]
    {
    }

    /** One column of the elimination: find the pivot, bring it to row `i`, clear the rows below. */
    method EliminateColumn(i: nat, j: nat) returns (found: bool)
      requires Core(lines, numRows, asg, tight, i, j, firstOneInRow) && |asg| == WORD * size
      requires j < |tight| && j < |asg| && j < |lastOneInCol| && i < numRows
      requires i <= tight[j] <= lastOneInCol[j] <= numRows
      modifies this`lines, this`propagatableRows
      ensures Core(lines, numRows, asg, tight, i, j, firstOneInRow)
      ensures SameSolutions(old(lines), lines, numRows)
      ensures |lines| == |old(lines)| && forall r :: 0 <= r < i ==> lines[r] == old(lines)[r]
      ensures found <==> One(lines, i, j)
      ensures forall r :: i < r < numRows ==> !One(lines, r, j)
      ensures found ==> i < tight[j]
      ensures propagatableRows ==
        old(propagatableRows) + if found && j + 1 < |asg| && Single(lines, i, j) then [i] else []
    {
      var u := FindPivot(i, j);
      found := u != lastOneInCol[j];
      if found {
        RowOnStairs(u, j);
        if u != i {
          SwapCore(lines, numRows, asg, tight, i, j, firstOneInRow, u);
          SwapKeepsSolutions(lines, numRows, i, u);
          SwapMoves(lines, i, u, j);
          lines := Swapped(lines, i, u);
        }
        RowSingle(lines, numRows, asg, i, j);
        var single := PopcntIsOne(lines[i], size, j);
        if single {
          propagatableRows := propagatableRows + [i];
        }
        ghost var ls1 := lines;
        ClearBelow(u, i, j);
        SolutionsTrans(old(lines), ls1, lines, numRows);
        assert lines[i] == ls1[i];
        SameSingle(ls1, lines, i, j);
      } else {
        assert old(propagatableRows) + [] == propagatableRows;
        assert forall r :: lastOneInCol[j] <= r < numRows ==> !One(lines, r, j);
      }
    }

    /** The matrix is fit for elimination: fresh, unchanged, or changed from the least column on. */
    ghost predicate Eliminable()
      reads this
    {
      && Shape() && numRows > 0 && LastWithin(colToVar, lastOneInCol, numRows)
      && (leastColumnChanged == -1 || Settled() || (leastColumnChanged >= 0 && Restartable(leastColumnChanged)))
    }

    ghost predicate Restartable(lc: nat)
      reads this
    {
      && lc < |tight| && RestartsAt(lines, numRows, asg, tight, firstOneInRow, lastOneInCol, lc)
      && LastExact(colToVar, tight, firstOneInRow, lastOneInCol, numRows, |tight|)
    }

    /** The rows kept from the last elimination that were changed and have a single one. */
    method MarkPrefix(until: nat, ghost j: nat)
      requires Shape() && until <= numRows && j <= |tight| && InEchelon(lines, numRows, until, j, firstOneInRow)
      requires propagatableRows == []
      modifies this`propagatableRows
      ensures Marked(propagatableRows, lines, firstOneInRow, |asg|, until, until, changedRows)
    {
      hide Stairs, LastCovers, ColumnsLinked;
      var i := 0;
      while i != until
        invariant 0 <= i <= until
        invariant Marked(propagatableRows, lines, firstOneInRow, |asg|, i, until, changedRows)
      {
        if changedRows[i] {
          RowSingle(lines, numRows, asg, i, firstOneInRow[i]);
          var single := PopcntIsOne(lines[i], size, firstOneInRow[i]);
          if single {
            propagatableRows := propagatableRows + [i];
          }
        }
        i := i + 1;
      }
    }

    /** The part of `eliminate` before the loop: where to start, and the kept rows that propagate. */
    method StartElimination() returns (i: nat, j: nat, ghost counts: seq<nat>)
      requires Eliminable() && leastColumnChanged != INT_MAX && propagatableRows == []
      modifies this`propagatableRows
      ensures Going(lines, numRows, asg, colToVar, tight, counts, firstOneInRow, lastOneInCol, i, j)
      ensures i <= numRows && j <= |tight|
      ensures StartsAt(i, numRows, iterativeReduce, leastColumnChanged, firstOneInRow)
      ensures Marked(propagatableRows, lines, firstOneInRow, |asg|, i, i, changedRows)
    {
      hide Going, Marked, Wide, Linked, Stairs, LastCovers, InEchelon, Counted, LastExact, LastWithin, ColumnsLinked,
        Capped;
      i, j, counts := 0, if iterativeReduce then leastColumnChanged + 1 else 0, tight;
      StartFresh();
      StartsFresh(numRows, iterativeReduce, leastColumnChanged, firstOneInRow);
      if j != 0 {
        StartLater(leastColumnChanged);
        i := StartRow(firstOneInRow, lastOneInCol, numRows, leastColumnChanged);
        counts := Capped(tight, i);
        MarkPrefix(i, j);
      }
    }

    lemma StartFresh()
      requires Eliminable()
      ensures Going(lines, numRows, asg, colToVar, tight, tight, firstOneInRow, lastOneInCol, 0, 0)
      ensures Marked([], lines, firstOneInRow, |asg|, 0, 0, changedRows)
    {
    }

    lemma StartLater(lc: nat)
      requires Eliminable() && leastColumnChanged == lc < INT_MAX
      ensures lc < |tight| == |lastOneInCol| && lastOneInCol[lc] >= 1 && 0 < numRows <= |firstOneInRow|
      ensures var i := StartRow(firstOneInRow, lastOneInCol, numRows, lc);
        && (iterativeReduce ==> StartsAt(i, numRows, iterativeReduce, lc, firstOneInRow))
        && i <= numRows && InEchelon(lines, numRows, i, lc + 1, firstOneInRow)
        && Going(lines, numRows, asg, colToVar, tight, Capped(tight, i), firstOneInRow, lastOneInCol, i, lc + 1)
    {
      RestartRow(lines, numRows, asg, tight, firstOneInRow, lastOneInCol, lc);
      var i := StartRow(firstOneInRow, lastOneInCol, numRows, lc);
      StartCounts(lines, numRows, asg, colToVar, tight, firstOneInRow, lastOneInCol, i, lc);
      StartRowExact(lines, numRows, asg, tight, firstOneInRow, lastOneInCol, lc);
    }

    /** The loop body of `eliminate` for column `j`. */
    method ProcessColumn(i: nat, j: nat, ghost counts: seq<nat>, ghost start: nat)
      returns (i': nat, ghost counts': seq<nat>)
      requires Going(lines, numRows, asg, colToVar, tight, counts, firstOneInRow, lastOneInCol, i, j)
      requires Marked(propagatableRows, lines, firstOneInRow, |asg|, i, start, changedRows)
      requires ColumnsLinked(colToVar, colToVarOriginal, numCols, asg) && |asg| == WORD * size
      requires j < numCols && start <= i < numRows <= |changedRows|
      modifies this`lines, this`lastOneInCol, this`firstOneInRow, this`propagatableRows
      ensures Going(lines, numRows, asg, colToVar, tight, counts', firstOneInRow, lastOneInCol, i', j + 1)
      ensures Marked(propagatableRows, lines, firstOneInRow, |asg|, i', start, changedRows)
      ensures SameSolutions(old(lines), lines, numRows) && start <= i' <= numRows
      ensures |lines| == |old(lines)| && forall r :: 0 <= r < start ==> lines[r] == old(lines)[r]
      ensures |firstOneInRow| == |old(firstOneInRow)| && |lastOneInCol| == |old(lastOneInCol)|
    {
      hide Going, Marked, Core, SameSolutions, ColumnsLinked, Single, Wide, Linked, InEchelon, Stairs, Counted,
        LastCovers, LastExact, Active;
      ghost var ls0, rows0, first0, last0 := lines, propagatableRows, firstOneInRow, lastOneInCol;
      LinkedSizes(colToVar, colToVarOriginal, numCols, asg);
      ColumnReady(ls0, numRows, asg, colToVar, tight, counts, first0, last0, i, j);
      if colToVar[j].None? {
        CoreParts(ls0, numRows, asg, tight, i, j, first0);
        InactiveColumn(lines, numRows, asg, colToVar, colToVarOriginal, numCols, j);
        NotActive(colToVar, j);
        StepSkip(lines, numRows, asg, colToVar, tight, counts, first0, last0, i, j);
        SolutionsRefl(lines, numRows);
        return i, counts[j := i];
      }
      IsActive(colToVar, j);
      var found := EliminateColumn(i, j);
      firstOneInRow := firstOneInRow[i := j];
      lastOneInCol := lastOneInCol[j := i + 1];
      ColumnDone(rows0, propagatableRows, ls0, lines, numRows, asg, colToVar, tight, counts, first0, last0, i, j, start,
        changedRows, found);
      i' := if found then i + 1 else i;
      counts' := counts[j := i'];
    }

    /** The loop of `eliminate`, and its end. */
    method EliminateColumns(i0: nat, j0: nat, ghost counts0: seq<nat>) returns (i: nat)
      requires Going(lines, numRows, asg, colToVar, tight, counts0, firstOneInRow, lastOneInCol, i0, j0)
      requires Marked(propagatableRows, lines, firstOneInRow, |asg|, i0, i0, changedRows)
      requires ColumnsLinked(colToVar, colToVarOriginal, numCols, asg) && |asg| == WORD * size
      requires numCols <= |tight| == |colToVarOriginal| == |lastOneInCol| < INT_MAX && j0 <= |tight|
      requires i0 <= numRows <= |changedRows| == |firstOneInRow|
      modifies this`lines, this`leastColumnChanged, this`lastOneInCol, this`firstOneInRow
      modifies this`propagatableRows, this`tight
      ensures Eliminated(i) && Marked(propagatableRows, lines, firstOneInRow, |asg|, i, i0, changedRows)
      ensures SameSolutions(old(lines), lines, numRows) && i0 <= i
      ensures |lines| == |old(lines)| && forall r :: 0 <= r < i0 ==> lines[r] == old(lines)[r]
    {
      hide Eliminated, Going, Marked, SameSolutions, ColumnsLinked, Stairs, Linked, Wide, LastCovers, LastExact,
        Counted, InEchelon, ZeroRow;
      ghost var counts := counts0;
      var j := j0;
      i := i0;
      GoingSizes(lines, numRows, asg, colToVar, tight, counts, firstOneInRow, lastOneInCol, i, j);
      SolutionsRefl(lines, numRows);
      while i != numRows && j < numCols
        invariant Going(lines, numRows, asg, colToVar, tight, counts, firstOneInRow, lastOneInCol, i, j)
        invariant Marked(propagatableRows, lines, firstOneInRow, |asg|, i, i0, changedRows)
        invariant SameSolutions(old(lines), lines, numRows)
        invariant i0 <= i <= numRows && j <= |tight|
        invariant |lines| == |old(lines)| && forall r :: 0 <= r < i0 ==> lines[r] == old(lines)[r]
        invariant |firstOneInRow| == |old(firstOneInRow)| && |lastOneInCol| == |old(lastOneInCol)|
        decreases numCols - j
        modifies this`lines, this`lastOneInCol, this`firstOneInRow, this`propagatableRows
      {
        ghost var ls1 := lines;
        i, counts := ProcessColumn(i, j, counts, i0);
        SolutionsTrans(old(lines), ls1, lines, numRows);
        j := j + 1;
      }
      GoingSizes(lines, numRows, asg, colToVar, tight, counts, firstOneInRow, lastOneInCol, i, j);
      Finish(lines, numRows, asg, colToVar, colToVarOriginal, numCols, tight, counts, firstOneInRow, lastOneInCol, i,
        j);
      leastColumnChanged := INT_MAX;
      tight := FinalTight(counts, i, j);
      Assembled(i);
    }

    /** After elimination: `i` pivot rows, then zero rows. */
    ghost predicate Eliminated(i: nat)
      reads this
    {
      && Shape() && leastColumnChanged == INT_MAX
      && InEchelon(lines, numRows, i, |tight|, firstOneInRow)
      && (forall r :: i <= r < numRows ==> ZeroRow(lines[r]))
      && Counted(tight, firstOneInRow, i, |tight|)
      && LastExact(colToVar, tight, firstOneInRow, lastOneInCol, numRows, |tight|)
    }

    /**
     `eliminate`.  Returns the number of pivot rows; `start` is the row from which
     rows were processed again: the first one that does not start before the least
     changed column.
     */
    method Eliminate() returns (i: nat, ghost start: nat)
      requires Eliminable() && propagatableRows == []
      modifies this`lines, this`leastColumnChanged, this`lastOneInCol, this`firstOneInRow
      modifies this`propagatableRows, this`tight
      ensures Eliminated(i)
      ensures SameSolutions(old(lines), lines, numRows)
      ensures start <= i && StartsAt(start, numRows, iterativeReduce, old(leastColumnChanged), old(firstOneInRow))
      ensures |lines| == |old(lines)| && forall r :: 0 <= r < start ==> lines[r] == old(lines)[r]
      ensures old(leastColumnChanged) == INT_MAX ==> start == i == numRows && propagatableRows == []
      ensures old(leastColumnChanged) != INT_MAX ==>
        Marked(propagatableRows, lines, firstOneInRow, |asg|, i, start, changedRows)
    {
      Parts();
      hide Eliminable, Eliminated, Going, Marked, SameSolutions, ColumnsLinked, Stairs, Linked, Wide, LastCovers,
        LastExact, Counted, InEchelon, ZeroRow;
      if leastColumnChanged == INT_MAX {
        SolutionsRefl(lines, numRows);
        return numRows, numRows;
      }
      ghost var counts;
      var j;
      i, j, counts := StartElimination();
      start := i;
      i := EliminateColumns(i, j, counts);
    }

    lemma Parts()
      requires Eliminable()
      ensures ColumnsLinked(colToVar, colToVarOriginal, numCols, asg) && |asg| == WORD * size
      ensures numCols <= |colToVar| == |colToVarOriginal| == |lastOneInCol| == |tight| < INT_MAX
      ensures numRows <= |firstOneInRow| == |changedRows|
      ensures leastColumnChanged == INT_MAX ==> Eliminated(numRows)
    {
    }

    lemma Assembled(i: nat)
      requires |asg| == WORD * size && |colToVarOriginal| == |lastOneInCol| == |tight| < INT_MAX
      requires numRows <= |firstOneInRow| == |changedRows| && leastColumnChanged == INT_MAX
      requires Wide(lines, numRows, |asg|) && Linked(lines, numRows, asg)
      requires ColumnsLinked(colToVar, colToVarOriginal, numCols, asg)
      requires Stairs(lines, numRows, tight, 0) && LastCovers(tight, lastOneInCol, |tight|)
      requires InEchelon(lines, numRows, i, |tight|, firstOneInRow)
      requires forall r :: i <= r < numRows ==> ZeroRow(lines[r])
      requires Counted(tight, firstOneInRow, i, |tight|)
      requires LastExact(colToVar, tight, firstOneInRow, lastOneInCol, numRows, |tight|)
      ensures Eliminated(i)
    {
    }

    /**
     `handle_matrix_prop_and_confl`: a false zero row is a conflict; else the zero rows go and
     single ones propagate.
     */
    method HandlePropAndConfl(lastRow: nat) returns (v: Verdict)
      requires Eliminated(lastRow) && numRows > 0
      requires forall r :: r in propagatableRows ==> r < lastRow && Single(lines, r, firstOneInRow[r])
      modifies this`numRows
      ensures v.Conflict? <==> !Consistent(lines, old(numRows), asg)
      ensures v.Conflict? ==> numRows == old(numRows)
      ensures v.Implied? ==> numRows == lastRow && (lastRow > 0 ==> Ready())
      ensures v.Implied? ==> forall x :: Completes(x, asg) ==>
        (SolvesAll(lines, numRows, x) <==> SolvesAll(lines, old(numRows), x))
      ensures v.Implied? ==> PropsOf(v.props, propagatableRows, firstOneInRow, lines)
    {
      hide LastExact, Counted, Stairs, LastCovers, ColumnsLinked;
      InconsistentIff(lines, numRows, asg, lastRow, |tight|, firstOneInRow);
      for row := lastRow to numRows
        invariant forall r :: lastRow <= r < row ==> !FalseRow(lines, r)
      {
        if lines[row].mat.isTrue {
          assert FalseRow(lines, row);
          return Conflict;
        }
      }
      ghost var n := numRows;
      forall x | Completes(x, asg)
        ensures SolvesAll(lines, lastRow, x) <==> SolvesAll(lines, n, x)
      {
        DropZeroRows(lines, n, lastRow, asg, x);
      }
      Shrunk(lastRow);
      numRows := lastRow;
      var props := [];
      for k := 0 to |propagatableRows|
        invariant PropsOf(props, propagatableRows[..k], firstOneInRow, lines)
      {
        var row := propagatableRows[k];
        assert row in propagatableRows;
        props := props + [Prop(firstOneInRow[row], lines[row].mat.isTrue)];
      }
      assert propagatableRows[..|propagatableRows|] == propagatableRows;
      v := Implied(props);
    }

    /** The facts that are left when only the pivot rows are kept. */
    lemma Shrunk(i: nat)
      requires Eliminated(i)
      ensures i <= numRows && Wide(lines, i, |asg|) && Linked(lines, i, asg) && Stairs(lines, i, tight, 0)
      ensures InEchelon(lines, i, i, |tight|, firstOneInRow)
      ensures LastExact(colToVar, tight, firstOneInRow, lastOneInCol, i, |tight|)
    {
      forall c | 0 <= c < |tight| && Active(colToVar, c)
        ensures LastAt(tight, firstOneInRow, lastOneInCol, i, c)
      {
        assert LastAt(tight, firstOneInRow, lastOneInCol, numRows, c);
      }
    }

    /** Taking columns out of a settled matrix leaves it fit for elimination from the least one on. */
    lemma StillEliminable(ls0: Lines, least0: int, asg0: Partial, colToVar0: seq<Option<nat>>, numCols0: nat)
      requires Shape() && numRows > 0 && LastWithin(colToVar, lastOneInCol, numRows)
      requires Wide(ls0, numRows, |asg0|) && Linked(ls0, numRows, asg0)
      requires ColumnsLinked(colToVar0, colToVarOriginal, numCols0, asg0)
      requires LastWithin(colToVar0, lastOneInCol, numRows)
      requires Reduction(ls0, lines, numRows, asg) && LeastChanged(least0, leastColumnChanged, asg0, asg)
      requires forall c :: 0 <= c < |asg| && asg0[c] != None ==> asg[c] == asg0[c]
      requires least0 == -1 || least0 == INT_MAX
      requires least0 == INT_MAX ==>
        && InEchelon(ls0, numRows, numRows, |tight|, firstOneInRow)
        && Counted(tight, firstOneInRow, numRows, |tight|)
        && LastExact(colToVar0, tight, firstOneInRow, lastOneInCol, numRows, |tight|)
      ensures Eliminable()
    {
      if least0 == INT_MAX {
        forall c | 0 <= c < |tight| && Active(colToVar, c)
          ensures LastAt(tight, firstOneInRow, lastOneInCol, numRows, c)
        {
          assert Active(colToVar0, c);
        }
        forall r | 0 <= r < numRows
          ensures One(ls0, r, firstOneInRow[r]) && asg0[firstOneInRow[r]] == None
        {
          assert One(ls0, r, firstOneInRow[r]);
        }
        if leastColumnChanged != INT_MAX {
          var lc := leastColumnChanged;
          assert Active(colToVar0, lc);
          assert LastAt(tight, firstOneInRow, lastOneInCol, numRows, lc);
          assert Restartable(lc);
        } else {
          assert forall c :: 0 <= c < |asg| ==> asg[c] == asg0[c];
          assert Settled();
        }
      }
    }

    /** The first steps of `gaussian`: clip `last_one_in_col`, take out the columns that got values. */
    method Prepare(assigns: Partial)
      requires Ready() && forall w :: w in colToVarOriginal ==> w < |assigns|
      modifies this`lines, this`changedRows, this`leastColumnChanged, this`colToVar, this`asg, this`numCols,
        this`lastOneInCol, this`propagatableRows
      ensures propagatableRows == [] && Eliminable() && SameSolutions(old(lines), lines, numRows)
      ensures asg == Extended(old(asg), colToVarOriginal, assigns)
      ensures Reduction(old(lines), lines, numRows, asg)
      ensures LeastChanged(old(leastColumnChanged), leastColumnChanged, old(asg), asg)
      ensures numRows <= |changedRows| && forall r :: 0 <= r < numRows ==>
        (changedRows[r] <==> Touched(old(lines), r, asg))
      ensures leastColumnChanged == INT_MAX ==> forall r :: 0 <= r < numRows ==> !changedRows[r]
    {
      ghost var ls0, least0, asg0, colToVar0, cols0 := lines, leastColumnChanged, asg, colToVar, numCols;
      UpdateLastOneInCol();
      UpdateMatrixByColAll(assigns);
      StillEliminable(ls0, least0, asg0, colToVar0, cols0);
      FullRowsKept(ls0, lines, numRows, asg);
      if leastColumnChanged == INT_MAX {
        NoneChanged(least0, asg0, asg, colToVarOriginal, assigns);
        StartReduction(ls0, numRows, asg0, |asg|);
      }
      propagatableRows := [];
    }

    /**
     `gaussian`, for a matrix not saved at an earlier level: bring the matrix up to
     date, eliminate, report.  There is a conflict exactly if no values complete the
     assignment and solve the rows; otherwise the remaining rows have the same
     solutions and the reported values hold in all of them.  On every call, exactly the
     rows with a single one outside the last bit are reported, but for those that were
     kept from before (the rows before `start`) and had no one in a column now set.
     */
    method Run(assigns: Partial) returns (v: Verdict, ghost start: nat)
      requires Ready() && forall w :: w in colToVarOriginal ==> w < |assigns|
      modifies this
      ensures asg == Extended(old(asg), colToVarOriginal, assigns)
      ensures v.Conflict? <==> !Consistent(old(lines), old(numRows), asg)
      ensures v.Implied? ==> numRows <= old(numRows) && (numRows > 0 ==> Ready())
      ensures v.Implied? ==> SameCompletions(old(lines), old(numRows), lines, numRows, asg)
      ensures v.Implied? ==> PropsHold(v.props, lines, numRows, asg)
      ensures v.Implied? ==> Reported(v.props, old(lines), lines, numRows, start, asg)
      ensures Keeps(old(lines), lines, old(numRows), start, asg)
      ensures Restarts(
        start, old(numRows), iterativeReduce, old(leastColumnChanged), old(firstOneInRow), old(asg), asg)
    {
      hide SameSolutions, Shape, Eliminable, Ready, Marked, Consistent, SolvesAll, Single, LastExact, Counted,
        InEchelon, SameCompletions, PropsHold, Reported, PropsOf, Touched, StartsAt, Restarts, Keeps, Extended;
      ReadyLeast();
      Prepare(assigns);
      ghost var n, ls1, least1 := numRows, lines, leastColumnChanged;
      EliminableRows();
      var lastRow;
      lastRow, start := Eliminate();
      SolutionsTrans(old(lines), ls1, lines, n);
      ConsistentSame(old(lines), lines, n, asg);
      RestartsOf(start, n, iterativeReduce, old(leastColumnChanged), least1, old(firstOneInRow), old(asg), asg,
        colToVarOriginal, assigns);
      KeepsRows(old(lines), ls1, lines, n, start, asg);
      PivotRows(lastRow);
      if least1 == INT_MAX {
        MarkedNothing(lines, firstOneInRow, |asg|, lastRow, start, changedRows);
      }
      ListedAreSingle(lastRow, start);
      v := HandlePropAndConfl(lastRow);
      if v.Implied? {
        SameSolutionsComplete(old(lines), lines, n, lastRow, asg);
        ReportedHold(v.props, propagatableRows, lines, firstOneInRow, asg, lastRow);
        ReportedExactly(
          v.props, propagatableRows, old(lines), lines, firstOneInRow, asg, lastRow, start, n, |tight|, changedRows);
      }
    }

    lemma ReadyLeast()
      requires Ready()
      ensures (leastColumnChanged == -1 || leastColumnChanged == INT_MAX) && |colToVarOriginal| < INT_MAX
    {
    }

    lemma ListedAreSingle(i: nat, start: nat)
      requires Marked(propagatableRows, lines, firstOneInRow, |asg|, i, start, changedRows)
      ensures forall r :: r in propagatableRows ==> r < i && r < |firstOneInRow| && Single(lines, r, firstOneInRow[r])
    {
    }

    lemma PivotRows(i: nat)
      requires Eliminated(i)
      ensures i <= numRows <= |firstOneInRow| && Wide(lines, i, |asg|) && Linked(lines, i, asg)
      ensures InEchelon(lines, numRows, i, |tight|, firstOneInRow)
    {
    }

    lemma EliminableRows()
      requires Eliminable()
      ensures numRows > 0 && (leastColumnChanged == -1 || leastColumnChanged >= 0)
    {
    }
  }

  lemma NoneChanged(least: int, asg0: Partial, asg: Partial, vars: seq<nat>, assigns: Partial)
    requires LeastChanged(least, INT_MAX, asg0, asg) && asg == Extended(asg0, vars, assigns) && |vars| < INT_MAX
    ensures asg == asg0
  {
    forall c | 0 <= c < |asg|
      ensures asg[c] == asg0[c]
    {
      assert c >= |vars| ==> asg[c] == ExtendedAt(asg0, vars, assigns, c, |vars|);
    }
  }

  lemma FullRowsKept(ls: Lines, ls': Lines, n: nat, asg: Partial)
    requires Reduction(ls, ls', n, asg)
    ensures SameSolutions(ls, ls', n)
  {
  }

  lemma SameSolutionsComplete(ls: Lines, ls': Lines, n: nat, i: nat, asg: Partial)
    requires SameSolutions(ls, ls', n)
    requires forall x :: Completes(x, asg) ==> (SolvesAll(ls', i, x) <==> SolvesAll(ls', n, x))
    ensures SameCompletions(ls, n, ls', i, asg)
  {
  }

  lemma ConsistentSame(ls: Lines, ls': Lines, n: nat, asg: Partial)
    requires SameSolutions(ls, ls', n)
    ensures Consistent(ls, n, asg) <==> Consistent(ls', n, asg)
  {
  }

  /** The two systems have the same solutions among the values that complete the assignment. */
  ghost predicate SameCompletions(ls: Lines, n: nat, ls': Lines, n': nat, asg: Partial) {
    forall x :: Completes(x, asg) ==> (SolvesAll(ls, n, x) <==> SolvesAll(ls', n', x))
  }

  /** The reported values hold in every solution that completes the assignment. */
  ghost predicate PropsHold(props: seq<Prop>, ls: Lines, n: nat, asg: Partial) {
    forall p, x :: p in props && Completes(x, asg) && SolvesAll(ls, n, x) ==> p.col < |x| && x[p.col] == p.value
  }

  /** `p` is what row `r` says about its single one, which is not the last bit. */
  ghost predicate SaidBy(p: Prop, ls: Lines, n: nat, width: nat, r: nat) {
    r < n <= |ls| && Single(ls, r, p.col) && p.col + 1 < width && p.value == ls[r].mat.isTrue
  }

  /**
   Of the rows with a single one, exactly those whose one is not the last bit are reported, but
   for kept rows that had no one in a column that is set now; and nothing else is reported.
   */
  ghost predicate Reported(props: seq<Prop>, ls0: Lines, ls: Lines, n: nat, start: nat, asg: Partial) {
    && n <= |ls|
    && (forall r: nat, c: nat :: r < n && Single(ls, r, c) ==>
      (c + 1 < |asg| && (r < start ==> Touched(ls0, r, asg)) <==> Prop(c, ls[r].mat.isTrue) in props))
    && (forall p :: p in props ==> exists r :: SaidBy(p, ls, n, |asg|, r))
  }

  /** The rows before `start` stand for the same full rows, and stood there already if no column of theirs was set. */
  ghost predicate Keeps(ls0: Lines, ls: Lines, n: nat, start: nat, asg: Partial) {
    && start <= n <= |ls0| == |ls|
    && forall r :: 0 <= r < start ==> ls[r].vs == ls0[r].vs && (!Touched(ls0, r, asg) ==> ls[r] == ls0[r])
  }

  ghost predicate BeforeChange(col: nat, asg0: Partial, asg: Partial)
    requires |asg| == |asg0|
  {
    forall c :: 0 <= c < |asg| && asg[c] != asg0[c] ==> col < c
  }

  /**
   Where elimination restarts: at row 0 if the matrix is fresh or rows are not to be kept, else
   the rows before it are those that start before every column that got a value.
   */
  ghost predicate Restarts(
    start: nat, n: nat, iterative: bool, least: int, first: seq<nat>, asg0: Partial, asg: Partial)
  {
    && |asg| == |asg0|
    && if least == -1 then start == 0
       else if asg == asg0 then start == n
       else if !iterative then start == 0
       else start <= n <= |first| && forall r :: 0 <= r < n ==> (r < start <==> BeforeChange(first[r], asg0, asg))
  }

  lemma RestartsOf(
      start: nat, n: nat, iterative: bool, least0: int, least: int, first: seq<nat>, asg0: Partial, asg: Partial,
      vars: seq<nat>, assigns: Partial)
    requires StartsAt(start, n, iterative, least, first) && LeastChanged(least0, least, asg0, asg)
    requires asg == Extended(asg0, vars, assigns) && |vars| < INT_MAX && (least0 == -1 || least0 == INT_MAX)
    ensures Restarts(start, n, iterative, least0, first, asg0, asg)
  {
    if least == INT_MAX {
      NoneChanged(least0, asg0, asg, vars, assigns);
    }
  }

  lemma KeepsRows(ls0: Lines, ls1: Lines, ls: Lines, n: nat, start: nat, asg: Partial)
    requires Reduction(ls0, ls1, n, asg) && start <= n && |ls| == |ls1|
    requires forall r :: 0 <= r < start ==> ls[r] == ls1[r]
    ensures Keeps(ls0, ls, n, start, asg)
  {
  }

  lemma MarkedNothing(ls: Lines, first: seq<nat>, width: nat, i: nat, start: nat, changed: seq<bool>)
    requires i <= start && i <= |first| && i <= |changed| && forall r :: 0 <= r < i ==> !changed[r]
    ensures Marked([], ls, first, width, i, start, changed)
  {
  }

  lemma ReportedHold(props: seq<Prop>, rows: seq<nat>, ls: Lines, first: seq<nat>, asg: Partial, i: nat)
    requires PropsOf(props, rows, first, ls) && Wide(ls, i, |asg|) && Linked(ls, i, asg)
    requires forall r :: r in rows ==> r < i && r < |first| && Single(ls, r, first[r])
    ensures PropsHold(props, ls, i, asg)
  {
    forall p, x | p in props && Completes(x, asg) && SolvesAll(ls, i, x)
      ensures p.col < |x| && x[p.col] == p.value
    {
      var k :| 0 <= k < |props| && props[k] == p;
      assert rows[k] in rows;
      SingleForces(ls, i, asg, rows[k], first[rows[k]], x);
    }
  }

  lemma ReportedExactly(
      props: seq<Prop>, rows: seq<nat>, ls0: Lines, ls: Lines, first: seq<nat>, asg: Partial, i: nat, start: nat,
      n: nat, j: nat, changed: seq<bool>)
    requires PropsOf(props, rows, first, ls) && Marked(rows, ls, first, |asg|, i, start, changed)
    requires InEchelon(ls, n, i, j, first) && n <= |changed|
    requires forall r :: 0 <= r < n ==> (changed[r] <==> Touched(ls0, r, asg))
    ensures Reported(props, ls0, ls, i, start, asg)
  {
    hide Touched;
    forall r: nat, c: nat | r < i && Single(ls, r, c)
      ensures c + 1 < |asg| && (r < start ==> Touched(ls0, r, asg)) <==> Prop(c, ls[r].mat.isTrue) in props
    {
      assert One(ls, r, first[r]);
      assert c == first[r];
      if c + 1 < |asg| && (r < start ==> changed[r]) {
        assert r in rows;
        var k :| 0 <= k < |rows| && rows[k] == r;
        assert props[k] in props;
      }
      if Prop(c, ls[r].mat.isTrue) in props {
        var k :| 0 <= k < |props| && props[k] == Prop(c, ls[r].mat.isTrue);
        assert rows[k] in rows;
      }
    }
    forall p | p in props
      ensures exists r :: SaidBy(p, ls, i, |asg|, r)
    {
      var k :| 0 <= k < |props| && props[k] == p;
      assert rows[k] in rows;
      assert SaidBy(p, ls, i, |asg|, rows[k]);
    }
  }

  /** A column whose value follows, and the value. */
  datatype Prop = Prop(col: nat, value: bool)

  /** Each listed row gives the column of its single one the row's right-hand side. */
  ghost predicate PropsOf(props: seq<Prop>, rows: seq<nat>, first: seq<nat>, ls: Lines) {
    && |props| == |rows|
    && forall p :: 0 <= p < |rows| ==>
      rows[p] < |first| && rows[p] < |ls| && props[p] == Prop(first[rows[p]], ls[rows[p]].mat.isTrue)
  }

  datatype Verdict = Conflict | Implied(props: seq<Prop>)

  /**
   The rows listed before `i`: each has a single one, not in the last bit, and was changed if it is
   before `start`.
   */
  ghost predicate Marked(
    rows: seq<nat>, ls: Lines, first: seq<nat>, width: nat, i: nat, start: nat, changed: seq<bool>)
  {
    && i <= |first| && i <= |changed|
    && forall r: nat :: r in rows <==>
      r < i && Single(ls, r, first[r]) && first[r] + 1 < width && (r < start ==> changed[r])
  }

  // ----- where a restart begins -----

  /**
   The row from which elimination works again: 0 if the matrix is fresh or nothing is to be kept,
   the end if no column changed, else the rows before it are those that start before the least
   changed column.
   */
  ghost predicate StartsAt(start: nat, n: nat, iterative: bool, least: int, first: seq<nat>) {
    if least == INT_MAX then start == n
    else if least < 0 || !iterative then start == 0
    else start <= n <= |first| && forall r :: 0 <= r < n ==> (r < start <==> first[r] < least)
  }

  lemma StartsFresh(n: nat, iterative: bool, least: int, first: seq<nat>)
    ensures (least < 0 || !iterative) && least != INT_MAX ==> StartsAt(0, n, iterative, least, first)
  {
  }

  lemma StartRowExact(ls: Lines, n: nat, asg: Partial, tight: seq<nat>, first: seq<nat>, last: seq<nat>, lc: nat)
    requires RestartsAt(ls, n, asg, tight, first, last, lc) && last[lc] >= 1
    ensures StartRow(first, last, n, lc) <= n
    ensures forall r :: 0 <= r < n ==> (r < StartRow(first, last, n, lc) <==> first[r] < lc)
  {
    assert first[n - 1] <= lc <==> n - 1 < tight[lc];
    forall r | 0 <= r < n
      ensures r < StartRow(first, last, n, lc) <==> first[r] < lc
    {
      assert first[r] <= lc <==> r < tight[lc];
      assert r < n - 1 ==> first[r] < first[n - 1];
      if HasPivot(tight, first, lc) {
        assert r < tight[lc] - 1 ==> first[r] < first[tight[lc] - 1];
      } else if tight[lc] > 0 {
        assert first[tight[lc] - 1] <= lc;
        assert r < tight[lc] - 1 ==> first[r] < first[tight[lc] - 1];
      }
    }
  }

  ghost predicate Increasing(first: seq<nat>, n: nat) {
    n <= |first| && forall r, s :: 0 <= r < s < n ==> first[r] < first[s]
  }

  /** The matrix was in echelon form before columns from `lc` on were taken out. */
  ghost predicate RestartsAt(
    ls: Lines, n: nat, asg: Partial, tight: seq<nat>, first: seq<nat>, last: seq<nat>, lc: nat)
  {
    && 0 < n <= |ls| && lc < |tight| == |last| <= |asg| && asg[lc] != None
    && Increasing(first, n)
    && (forall r :: 0 <= r < n && first[r] < lc ==> One(ls, r, first[r]))
    && (forall r, k :: 0 <= r < n && 0 <= k < first[r] ==> !One(ls, r, k))
    && Counted(tight, first, n, |tight|) && LastAt(tight, first, last, n, lc) && last[lc] <= n
  }

  /** The row at which elimination restarts. */
  function StartRow(first: seq<nat>, last: seq<nat>, n: nat, lc: nat): nat
    requires 0 < n <= |first| && lc < |last| && last[lc] >= 1
  {
    if lc > first[n - 1] then n else if last[lc] - 1 < n then last[lc] - 1 else n
  }

  lemma RestartRow(ls: Lines, n: nat, asg: Partial, tight: seq<nat>, first: seq<nat>, last: seq<nat>, lc: nat)
    requires RestartsAt(ls, n, asg, tight, first, last, lc)
    requires Wide(ls, n, |asg|) && Linked(ls, n, asg) && Stairs(ls, n, tight, 0)
    ensures last[lc] >= 1 && StartRow(first, last, n, lc) <= tight[lc] <= n
    ensures InEchelon(ls, n, StartRow(first, last, n, lc), lc + 1, first)
  {
    assert first[n - 1] <= lc <==> n - 1 < tight[lc];
    var u := StartRow(first, last, n, lc);
    forall r | 0 <= r < u
      ensures first[r] < lc
    {
      if HasPivot(tight, first, lc) {
        assert r < tight[lc] - 1;
      } else {
        assert r < tight[lc];
        assert first[r] <= lc && first[tight[lc] - 1] != lc;
        assert first[tight[lc] - 1] <= lc;
        assert r < tight[lc] - 1 ==> first[r] < first[tight[lc] - 1];
      }
    }
    forall r, k | u <= r < n && 0 <= k < lc + 1
      ensures !One(ls, r, k)
    {
      InactiveZero(ls, n, asg, r, lc);
      if r >= tight[lc] {
        assert !One(ls, r, k);
      } else {
        assert r == tight[lc] - 1 && first[r] == lc;
      }
    }
  }

  function Capped(t: seq<nat>, i: nat): (r: seq<nat>)
    ensures |r| == |t|
  {
    seq(|t|, c requires 0 <= c < |t| => if i < t[c] then i else t[c])
  }

  /** Pivot counts of the columns up to the restart, and what `last_one_in_col` is there. */
  lemma StartCounts(
      ls: Lines, n: nat, asg: Partial, colToVar: seq<Option<nat>>, tight: seq<nat>, first: seq<nat>, last: seq<nat>,
      i: nat, lc: nat)
    requires RestartsAt(ls, n, asg, tight, first, last, lc) && InEchelon(ls, n, i, lc + 1, first)
    requires |colToVar| == |tight| && !Active(colToVar, lc) && LastExact(colToVar, tight, first, last, n, |tight|)
    requires LastCovers(tight, last, |tight|)
    ensures Counted(Capped(tight, i), first, i, lc + 1) && LastCovers(Capped(tight, i), last, lc + 1)
    ensures LastExact(colToVar, Capped(tight, i), first, last, n, lc + 1)
  {
    var counts := Capped(tight, i);
    forall c | 0 <= c < lc + 1 && Active(colToVar, c)
      ensures LastAt(counts, first, last, n, c)
    {
      assert LastAt(tight, first, last, n, c);
    }
  }

  // ----- the elimination loop -----

  /** Everything the loop keeps at row `i`, column `j`. */
  ghost predicate Going(
    ls: Lines, n: nat, asg: Partial, colToVar: seq<Option<nat>>, tight: seq<nat>, counts: seq<nat>,
    first: seq<nat>, last: seq<nat>, i: nat, j: nat)
  {
    && Core(ls, n, asg, tight, i, j, first) && Counted(counts, first, i, j)
    && |counts| == |tight| == |last| == |colToVar| && n <= |first|
    && LastCovers(counts, last, j) && LastExact(colToVar, counts, first, last, n, j)
    && (forall c :: j <= c < |tight| ==> tight[c] <= last[c] && (Active(colToVar, c) ==> last[c] <= n))
    && (if j == 0 then i == 0 else i <= tight[j - 1]) && (j < |tight| ==> i <= tight[j])
  }

  lemma StepSkip(
      ls: Lines, n: nat, asg: Partial, colToVar: seq<Option<nat>>, tight: seq<nat>, counts: seq<nat>,
      first: seq<nat>, last: seq<nat>, i: nat, j: nat)
    requires Going(ls, n, asg, colToVar, tight, counts, first, last, i, j) && j < |tight|
    requires !Active(colToVar, j) && forall r :: i <= r < n ==> !One(ls, r, j)
    ensures Going(ls, n, asg, colToVar, tight, counts[j := i], first, last, i, j + 1)
  {
    SkipColumn(ls, n, asg, tight, i, j, first, first);
    CountsKept(colToVar, counts, counts[j := i], first, first, last, last, n, i, j);
  }

  lemma StepNone(
      ls: Lines, n: nat, asg: Partial, colToVar: seq<Option<nat>>, tight: seq<nat>, counts: seq<nat>,
      first: seq<nat>, last: seq<nat>, i: nat, j: nat)
    requires Going(ls, n, asg, colToVar, tight, counts, first, last, i, j) && j < |tight| && i < n
    requires forall r :: i <= r < n ==> !One(ls, r, j)
    ensures Going(ls, n, asg, colToVar, tight, counts[j := i], first[i := j], last[j := i + 1], i, j + 1)
  {
    SkipColumn(ls, n, asg, tight, i, j, first, first[i := j]);
    CountsKept(colToVar, counts, counts[j := i], first, first[i := j], last, last[j := i + 1], n, i, j);
  }

  lemma StepPivot(
      ls: Lines, n: nat, asg: Partial, colToVar: seq<Option<nat>>, tight: seq<nat>, counts: seq<nat>,
      first: seq<nat>, last: seq<nat>, i: nat, j: nat)
    requires Going(ls, n, asg, colToVar, tight, counts, first, last, i, j) && j < |tight| && i < n
    requires One(ls, i, j) && i < tight[j] && forall r :: i < r < n ==> !One(ls, r, j)
    ensures Going(ls, n, asg, colToVar, tight, counts[j := i + 1], first[i := j], last[j := i + 1], i + 1, j + 1)
  {
    PivotColumn(ls, n, asg, tight, i, j, first);
    CountsKept(colToVar, counts, counts[j := i + 1], first, first[i := j], last, last[j := i + 1], n, i, j);
  }

  /** The counted columns do not see a change at row `i` and column `j`. */
  lemma CountsKept(
      colToVar: seq<Option<nat>>, counts: seq<nat>, counts': seq<nat>, first: seq<nat>, first': seq<nat>,
      last: seq<nat>, last': seq<nat>, n: nat, i: nat, j: nat)
    requires Counted(counts, first, i, j) && LastExact(colToVar, counts, first, last, n, j)
    requires |counts'| == |counts| && |first'| == |first| && |last'| == |last|
    requires forall c :: 0 <= c < j ==> counts'[c] == counts[c] && last'[c] == last[c]
    requires forall r :: 0 <= r < i ==> first'[r] == first[r]
    ensures Counted(counts', first', i, j) && LastExact(colToVar, counts', first', last', n, j)
  {
    forall c | 0 <= c < j && Active(colToVar, c)
      ensures LastAt(counts', first', last', n, c)
    {
      assert LastAt(counts, first, last, n, c);
    }
  }

  function FinalTight(counts: seq<nat>, i: nat, j: nat): (t: seq<nat>)
    ensures |t| == |counts|
  {
    seq(|counts|, c requires 0 <= c < |counts| => if c < j then counts[c] else i)
  }

  /** After the loop every column has its count, and the rows from `i` on are zero. */
  lemma Finish(
      ls: Lines, n: nat, asg: Partial, colToVar: seq<Option<nat>>, vars: seq<nat>, numCols: nat, tight: seq<nat>,
      counts: seq<nat>, first: seq<nat>, last: seq<nat>, i: nat, j: nat)
    requires Going(ls, n, asg, colToVar, tight, counts, first, last, i, j) && j <= |tight|
    requires ColumnsLinked(colToVar, vars, numCols, asg) && (i == n || j >= numCols)
    ensures forall r :: i <= r < n ==> ZeroRow(ls[r])
    ensures InEchelon(ls, n, i, |tight|, first) && Stairs(ls, n, FinalTight(counts, i, j), 0)
    ensures Counted(FinalTight(counts, i, j), first, i, |tight|)
    ensures LastCovers(FinalTight(counts, i, j), last, |tight|)
    ensures LastExact(colToVar, FinalTight(counts, i, j), first, last, n, |tight|)
  {
    forall r, k | i <= r < n && 0 <= k < |asg|
      ensures !One(ls, r, k)
    {
      if k >= j {
        InactiveZero(ls, n, asg, r, k);
      }
    }
    forall r | i <= r < n ensures ZeroRow(ls[r]) {
      forall k | 0 <= k < |ls[r].mat.bits| ensures !ls[r].mat.bits[k] { assert !One(ls, r, k); }
    }
    FinalLast(ls, n, asg, colToVar, tight, counts, first, last, i, j, numCols);
    FinalStairs(ls, n, |asg|, FinalTight(counts, i, j), first, i);
  }

  lemma FinalLast(
      ls: Lines, n: nat, asg: Partial, colToVar: seq<Option<nat>>, tight: seq<nat>, counts: seq<nat>,
      first: seq<nat>, last: seq<nat>, i: nat, j: nat, numCols: nat)
    requires Going(ls, n, asg, colToVar, tight, counts, first, last, i, j) && j <= |tight|
    requires (i == n || j >= numCols) && forall c :: numCols <= c ==> !Active(colToVar, c)
    ensures Counted(FinalTight(counts, i, j), first, i, |tight|)
    ensures LastCovers(FinalTight(counts, i, j), last, |tight|)
    ensures LastExact(colToVar, FinalTight(counts, i, j), first, last, n, |tight|)
  {
    var t := FinalTight(counts, i, j);
    forall c | 0 <= c < |tight|
      ensures t[c] <= last[c]
    {
      if c >= j && j > 0 {
        StairsMonotone(ls, n, tight, j, c, i);
      }
    }
    forall c | 0 <= c < |tight| && Active(colToVar, c)
      ensures LastAt(t, first, last, n, c)
    {
      if c < j {
        assert LastAt(counts, first, last, n, c);
      }
    }
  }

  lemma StairsMonotone(ls: Lines, n: nat, tight: seq<nat>, j: nat, c: nat, i: nat)
    requires Stairs(ls, n, tight, j) && j <= c < |tight| && i <= tight[j]
    ensures i <= tight[c]
  {
  }

  lemma FinalStairs(ls: Lines, n: nat, width: nat, t: seq<nat>, first: seq<nat>, i: nat)
    requires Counted(t, first, i, |t|) && i <= n <= |ls|
    requires forall r, k :: 0 <= r < i && 0 <= k < first[r] ==> !One(ls, r, k)
    requires forall r, k :: i <= r < n && 0 <= k < |t| ==> !One(ls, r, k)
    ensures Stairs(ls, n, t, 0)
  {
    forall c, d | 0 <= c <= d < |t|
      ensures t[c] <= t[d] <= n
    {
      if t[c] > 0 {
        assert first[t[c] - 1] <= c;
      }
    }
    forall c, r, k | 0 <= c < |t| && t[c] <= r < n && 0 <= k <= c
      ensures !One(ls, r, k)
    {
      if r < i {
        assert first[r] > c;
      }
    }
  }

  lemma InactiveColumn(
      ls: Lines, n: nat, asg: Partial, colToVar: seq<Option<nat>>, vars: seq<nat>, numCols: nat, j: nat)
    requires Wide(ls, n, |asg|) && Linked(ls, n, asg) && ColumnsLinked(colToVar, vars, numCols, asg)
    requires j < |colToVar| && colToVar[j] == None
    ensures forall r :: 0 <= r < n ==> !One(ls, r, j)
  {
  }

  /** The loop's facts after a column was worked on. */
  lemma GoingOn(
      ls: Lines, ls': Lines, n: nat, asg: Partial, colToVar: seq<Option<nat>>, tight: seq<nat>, counts: seq<nat>,
      first: seq<nat>, last: seq<nat>, i: nat, j: nat)
    requires Going(ls, n, asg, colToVar, tight, counts, first, last, i, j) && Core(ls', n, asg, tight, i, j, first)
    ensures Going(ls', n, asg, colToVar, tight, counts, first, last, i, j)
  {
  }

  lemma LinkedSizes(colToVar: seq<Option<nat>>, vars: seq<nat>, numCols: nat, asg: Partial)
    requires ColumnsLinked(colToVar, vars, numCols, asg)
    ensures numCols <= |colToVar| == |vars| <= |asg|
  {
  }

  lemma CoreParts(ls: Lines, n: nat, asg: Partial, tight: seq<nat>, i: nat, j: nat, first: seq<nat>)
    requires Core(ls, n, asg, tight, i, j, first)
    ensures Wide(ls, n, |asg|) && Linked(ls, n, asg)
  {
  }

  lemma NotActive(colToVar: seq<Option<nat>>, j: nat)
    requires j < |colToVar| && colToVar[j] == None
    ensures !Active(colToVar, j)
  {
  }

  lemma IsActive(colToVar: seq<Option<nat>>, j: nat)
    requires j < |colToVar| && colToVar[j] != None
    ensures Active(colToVar, j)
  {
  }

  /** The loop's facts after a column was searched and cleared, with or without a pivot. */
  lemma ColumnDone(
      rows0: seq<nat>, rows: seq<nat>, ls0: Lines, ls: Lines, n: nat, asg: Partial, colToVar: seq<Option<nat>>,
      tight: seq<nat>, counts: seq<nat>, first: seq<nat>, last: seq<nat>, i: nat, j: nat, start: nat,
      changed: seq<bool>, found: bool)
    requires Going(ls0, n, asg, colToVar, tight, counts, first, last, i, j) && Core(ls, n, asg, tight, i, j, first)
    requires Marked(rows0, ls0, first, |asg|, i, start, changed) && start <= i < n <= |changed| && n <= |first|
    requires j < |tight| == |last| == |counts| && |ls| == |ls0| && i <= |ls|
    requires forall r :: 0 <= r < i ==> ls[r] == ls0[r]
    requires (found <==> One(ls, i, j)) && (forall r :: i < r < n ==> !One(ls, r, j)) && (found ==> i < tight[j])
    requires rows == rows0 + if found && j + 1 < |asg| && Single(ls, i, j) then [i] else []
    ensures var i' := if found then i + 1 else i;
      && Going(ls, n, asg, colToVar, tight, counts[j := i'], first[i := j], last[j := i + 1], i', j + 1)
      && Marked(rows, ls, first[i := j], |asg|, i', start, changed)
  {
    hide Going, Marked, Core, Single, One;
    GoingOn(ls0, ls, n, asg, colToVar, tight, counts, first, last, i, j);
    if found {
      StepPivot(ls, n, asg, colToVar, tight, counts, first, last, i, j);
      MarkedPivot(rows0, rows, ls0, ls, first, |asg|, i, j, start, changed);
    } else {
      StepNone(ls, n, asg, colToVar, tight, counts, first, last, i, j);
      assert rows == rows0;
      MarkedNone(rows, ls0, ls, first, |asg|, i, j, start, changed);
    }
  }

  lemma MarkedPivot(
      rows: seq<nat>, rows': seq<nat>, ls: Lines, ls': Lines, first: seq<nat>, width: nat, i: nat, j: nat, start: nat,
      changed: seq<bool>)
    requires Marked(rows, ls, first, width, i, start, changed) && start <= i < |first| && i < |changed|
    requires i <= |ls| == |ls'| && forall r :: 0 <= r < i ==> ls'[r] == ls[r]
    requires rows' == rows + if j + 1 < width && Single(ls', i, j) then [i] else []
    ensures Marked(rows', ls', first[i := j], width, i + 1, start, changed)
  {
    forall r: nat
      ensures r in rows' <==>
        r < i + 1 && Single(ls', r, first[i := j][r]) && first[i := j][r] + 1 < width && (r < start ==> changed[r])
    {
      if r < i {
        SameSingle(ls, ls', r, first[r]);
      }
    }
  }

  lemma MarkedNone(
      rows: seq<nat>, ls: Lines, ls': Lines, first: seq<nat>, width: nat, i: nat, j: nat, start: nat,
      changed: seq<bool>)
    requires Marked(rows, ls, first, width, i, start, changed) && i < |first|
    requires i <= |ls| == |ls'| && forall r :: 0 <= r < i ==> ls'[r] == ls[r]
    ensures Marked(rows, ls', first[i := j], width, i, start, changed)
  {
    forall r: nat | r < i
      ensures Single(ls', r, first[i := j][r]) <==> Single(ls, r, first[r])
    {
      SameSingle(ls, ls', r, first[r]);
    }
  }

  lemma SolutionsRefl(a: Lines, n: nat)
    ensures SameSolutions(a, a, n)
  {
  }

  lemma GoingSizes(
      ls: Lines, n: nat, asg: Partial, colToVar: seq<Option<nat>>, tight: seq<nat>, counts: seq<nat>,
      first: seq<nat>, last: seq<nat>, i: nat, j: nat)
    requires Going(ls, n, asg, colToVar, tight, counts, first, last, i, j)
    ensures Wide(ls, n, |asg|) && Linked(ls, n, asg) && |counts| == |tight| == |last| && n <= |first| && n <= |ls|
  {
  }

  lemma ColumnReady(
      ls: Lines, n: nat, asg: Partial, colToVar: seq<Option<nat>>, tight: seq<nat>, counts: seq<nat>,
      first: seq<nat>, last: seq<nat>, i: nat, j: nat)
    requires Going(ls, n, asg, colToVar, tight, counts, first, last, i, j) && j < |colToVar|
    ensures Core(ls, n, asg, tight, i, j, first) && j < |tight| == |last| == |counts| && n <= |first| && n <= |ls|
    ensures i <= tight[j] <= last[j] && (Active(colToVar, j) ==> last[j] <= n)
  {
  }

  lemma SolutionsTrans(a: Lines, b: Lines, c: Lines, n: nat)
    requires SameSolutions(a, b, n) && SameSolutions(b, c, n)
    ensures SameSolutions(a, c, n)
  {
  }

  lemma SwapMoves(ls: Lines, i: nat, u: nat, j: nat)
    requires i < u < |ls| && One(ls, u, j) && forall r :: i <= r < u ==> !One(ls, r, j)
    ensures One(Swapped(ls, i, u), i, j) && forall r :: i < r <= u ==> !One(Swapped(ls, i, u), r, j)
    ensures forall r :: 0 <= r < i ==> Swapped(ls, i, u)[r] == ls[r]
  {
    var ls' := Swapped(ls, i, u);
    forall r | i < r <= u ensures !One(ls', r, j) {
      assert ls'[r] == if r == u then ls[i] else ls[r];
      assert !One(ls, i, j) && (r < u ==> !One(ls, r, j));
    }
  }

  lemma SameSingle(ls: Lines, ls': Lines, r: nat, c: nat)
    requires r < |ls| && r < |ls'| && ls[r] == ls'[r]
    ensures Single(ls, r, c) <==> Single(ls', r, c)
  {
    assert forall k: nat :: One(ls, r, k) <==> One(ls', r, k);
  }

  /** For a row that starts at column `c`, having no later one means having a single one. */
  lemma RowSingle(ls: Lines, n: nat, asg: Partial, r: nat, c: nat)
    requires Wide(ls, n, |asg|) && Linked(ls, n, asg) && r < n && One(ls, r, c)
    requires forall k :: 0 <= k < c ==> !One(ls, r, k)
    ensures Single(ls, r, c) <==> ZeroFrom(ls[r].mat.bits, c + 1)
    ensures exists k :: 0 <= k < |ls[r].vs.bits| && ls[r].vs.bits[k]
  {
    assert ls[r].vs.bits[c];
    if ZeroFrom(ls[r].mat.bits, c + 1) {
      forall k: nat | One(ls, r, k) ensures k == c {
        assert k < c ==> !One(ls, r, k);
      }
    }
    if Single(ls, r, c) {
      forall k | c + 1 <= k < |ls[r].mat.bits| ensures !ls[r].mat.bits[k] {
        assert One(ls, r, k) ==> k == c;
      }
    }
  }

  /** The update after looking at the columns before `col`. */
  ghost predicate UpTo(
    ls0: Lines, ls: Lines, n: nat, asg0: Partial, asg: Partial, vars: seq<nat>, assigns: Partial,
    least0: int, least: int, changed: seq<bool>, col: nat)
  {
    && n <= |changed| && |asg| == |asg0|
    && (forall c :: 0 <= c < |asg| ==> asg[c] == ExtendedAt(asg0, vars, assigns, c, col))
    && Reduction(ls0, ls, n, asg) && LeastChanged(least0, least, asg0, asg)
    && (forall r :: 0 <= r < n ==> (changed[r] <==> Touched(ls0, r, asg)))
  }

  lemma StartUpdate(
      ls: Lines, n: nat, asg: Partial, vars: seq<nat>, assigns: Partial, least: int, changed: seq<bool>)
    requires Wide(ls, n, |asg|) && Linked(ls, n, asg) && n <= |changed|
    requires forall r :: 0 <= r < |changed| ==> !changed[r]
    ensures UpTo(ls, ls, n, asg, asg, vars, assigns, least, least, changed, 0)
  {
    StartReduction(ls, n, asg, |asg|);
  }

  lemma UpToSkip(
      ls0: Lines, ls: Lines, n: nat, asg0: Partial, asg: Partial, vars: seq<nat>, assigns: Partial,
      least0: int, least: int, changed: seq<bool>, col: nat)
    requires UpTo(ls0, ls, n, asg0, asg, vars, assigns, least0, least, changed, col)
    requires col < |vars| <= |asg| && (asg[col] == None ==> vars[col] < |assigns| && assigns[vars[col]] == None)
    ensures UpTo(ls0, ls, n, asg0, asg, vars, assigns, least0, least, changed, col + 1)
  {
    assert asg[col] == ExtendedAt(asg0, vars, assigns, col, col);
    forall c | 0 <= c < |asg|
      ensures asg[c] == ExtendedAt(asg0, vars, assigns, c, col + 1)
    {
      assert asg[c] == ExtendedAt(asg0, vars, assigns, c, col);
    }
  }

  lemma UpToSet(
      ls0: Lines, ls1: Lines, ls: Lines, n: nat, asg0: Partial, asg1: Partial, asg: Partial, vars: seq<nat>,
      assigns: Partial, least0: int, least1: int, least: int, changed1: seq<bool>, changed: seq<bool>, col: nat,
      val: bool)
    requires UpTo(ls0, ls1, n, asg0, asg1, vars, assigns, least0, least1, changed1, col)
    requires TakenOut(ls1, ls, n, col) && col < |vars| <= |asg1| && asg1[col] == None && asg == asg1[col := Some(val)]
    requires vars[col] < |assigns| && assigns[vars[col]] == Some(val)
    requires least == if least1 < col then least1 else col
    requires n <= |changed| && forall r :: 0 <= r < n ==> (changed[r] <==> changed1[r] || One(ls1, r, col))
    ensures UpTo(ls0, ls, n, asg0, asg, vars, assigns, least0, least, changed, col + 1)
  {
    assert asg1[col] == ExtendedAt(asg0, vars, assigns, col, col);
    ReductionStep(ls0, ls1, ls, n, asg1, asg, col);
    LeastStep(least0, least1, least, asg0, asg1, asg, col);
    forall c | 0 <= c < |asg|
      ensures asg[c] == ExtendedAt(asg0, vars, assigns, c, col + 1)
    {
      assert asg1[c] == ExtendedAt(asg0, vars, assigns, c, col);
    }
  }

  /** Of the first `n` columns those from `n'` on got their values just now, and the one before did not. */
  ghost predicate TailGone(asg0: Partial, asg: Partial, n: nat, n': int) {
    && 0 <= n' <= n <= |asg| == |asg0|
    && (forall c :: n' <= c < n ==> asg[c] != asg0[c]) && (n' > 0 ==> asg[n' - 1] == asg0[n' - 1])
  }

  lemma TailStart(asg: Partial)
    ensures TailGone(asg, asg, 0, 0)
  {
  }

  lemma TailGrows(asg0: Partial, asg1: Partial, asg: Partial, n: nat, n': int, isSet: bool)
    requires TailGone(asg0, asg1, n, n') && n < |asg1| == |asg| && asg1[n] == asg0[n]
    requires (isSet <==> asg[n] != asg1[n]) && forall c :: 0 <= c < |asg| && c != n ==> asg[c] == asg1[c]
    ensures TailGone(asg0, asg, n + 1, if isSet then n' else n + 1)
  {
  }

  /** Columns at the end that have a value need not be looked at again. */
  lemma LinkedBeyond(colToVar: seq<Option<nat>>, vars: seq<nat>, numCols: nat, asg: Partial, last: nat)
    requires ColumnsLinked(colToVar, vars, numCols, asg) && last <= numCols <= |asg|
    requires forall c :: numCols - last <= c < numCols ==> asg[c] != None
    ensures ColumnsLinked(colToVar, vars, numCols - last, asg)
  {
  }

  lemma UpToSame(
      ls0: Lines, ls: Lines, n: nat, asg0: Partial, asg: Partial, vars: seq<nat>, assigns: Partial,
      least0: int, least: int, changed: seq<bool>, numCols: nat)
    requires UpTo(ls0, ls, n, asg0, asg, vars, assigns, least0, least, changed, numCols)
    requires forall c :: numCols <= c < |asg0| ==> asg0[c] != None
    ensures asg == Extended(asg0, vars, assigns) && Reduction(ls0, ls, n, asg) && LeastChanged(least0, least, asg0, asg)
    ensures n <= |changed| && forall r :: 0 <= r < n ==> (changed[r] <==> Touched(ls0, r, asg))
  {
    UpToEnd(ls0, ls, n, asg0, asg, vars, assigns, least0, least, changed, numCols);
  }

  lemma UpToEnd(
      ls0: Lines, ls: Lines, n: nat, asg0: Partial, asg: Partial, vars: seq<nat>, assigns: Partial,
      least0: int, least: int, changed: seq<bool>, numCols: nat)
    requires UpTo(ls0, ls, n, asg0, asg, vars, assigns, least0, least, changed, numCols)
    requires forall c :: numCols <= c < |asg0| ==> asg0[c] != None
    ensures asg == Extended(asg0, vars, assigns)
  {
    forall c | 0 <= c < |asg|
      ensures asg[c] == Extended(asg0, vars, assigns)[c]
    {
      assert asg[c] == ExtendedAt(asg0, vars, assigns, c, numCols);
    }
  }

  /** Column `c`'s value after the columns before `n` were looked at. */
  function ExtendedAt(asg: Partial, vars: seq<nat>, assigns: Partial, c: nat, n: nat): Option<bool>
    requires c < |asg|
  {
    if c < n && c < |vars| && asg[c] == None && vars[c] < |assigns| then assigns[vars[c]] else asg[c]
  }

  /** The assignment of columns brought up to date with the variables. */
  function Extended(asg: Partial, vars: seq<nat>, assigns: Partial): (r: Partial)
    ensures |r| == |asg|
  {
    seq(|asg|, c requires 0 <= c < |asg| => ExtendedAt(asg, vars, assigns, c, |vars|))
  }

  /** The full rows are unchanged, the set columns are gone from the matrix rows, other lines are as they were. */
  ghost predicate Reduction(ls: Lines, ls': Lines, n: nat, asg: Partial) {
    && n <= |ls| == |ls'|
    && (forall r :: 0 <= r < |ls| ==> ls'[r].vs == ls[r].vs)
    && (forall r, k :: 0 <= r < n && 0 <= k < |asg| ==> (One(ls', r, k) <==> One(ls, r, k) && asg[k] == None))
    && (forall r :: 0 <= r < n && !Touched(ls, r, asg) ==> ls'[r] == ls[r])
  }

  /** Row `r` had a one in a column that is now set. */
  ghost predicate Touched(ls: Lines, r: nat, asg: Partial) {
    exists k :: 0 <= k < |asg| && One(ls, r, k) && asg[k] != None
  }

  /** `least_column_changed`: unchanged if no column was set since, else the least such column if that is less. */
  ghost predicate LeastChanged(least: int, least': int, asg: Partial, asg': Partial) {
    && |asg| == |asg'| && least' <= least
    && (least' == least || (0 <= least' < |asg| && asg[least'] != asg'[least']))
    && (forall c :: 0 <= c < |asg| && asg[c] != asg'[c] ==> least' <= c)
  }

  lemma StartReduction(ls: Lines, n: nat, asg: Partial, width: nat)
    requires Wide(ls, n, |asg|) && Linked(ls, n, asg)
    ensures Reduction(ls, ls, n, asg) && forall r :: 0 <= r < n ==> !Touched(ls, r, asg)
  {
  }

  lemma ReductionStep(ls0: Lines, ls: Lines, ls': Lines, n: nat, asg: Partial, asg': Partial, col: nat)
    requires Reduction(ls0, ls, n, asg) && TakenOut(ls, ls', n, col)
    requires col < |asg| && asg[col] == None && exists v :: asg' == asg[col := Some(v)]
    ensures Reduction(ls0, ls', n, asg')
    ensures forall r :: 0 <= r < n ==> (Touched(ls0, r, asg') <==> Touched(ls0, r, asg) || One(ls, r, col))
  {
    forall r | 0 <= r < n
      ensures Touched(ls0, r, asg') <==> Touched(ls0, r, asg) || One(ls, r, col)
    {
      assert One(ls, r, col) <==> One(ls0, r, col);
      if Touched(ls0, r, asg) {
        var k :| 0 <= k < |asg| && One(ls0, r, k) && asg[k] != None;
        assert asg'[k] != None;
      }
      if One(ls, r, col) {
        assert asg'[col] != None;
      }
    }
  }

  lemma LeastStep(least0: int, least: int, least': int, asg0: Partial, asg: Partial, asg': Partial, col: nat)
    requires LeastChanged(least0, least, asg0, asg) && col < |asg| && asg0[col] == asg[col] == None
    requires exists v :: asg' == asg[col := Some(v)]
    requires least' == if least < col then least else col
    ensures LeastChanged(least0, least', asg0, asg')
  {
  }

  /** Column `col` is gone from the matrix rows; nothing else changed. */
  ghost predicate TakenOut(ls: Lines, ls': Lines, n: nat, col: nat) {
    && n <= |ls| == |ls'|
    && (forall r :: 0 <= r < |ls| ==> ls'[r].vs == ls[r].vs)
    && (forall r, k :: 0 <= r < n ==> (One(ls', r, k) <==> One(ls, r, k) && k != col))
    && (forall r :: 0 <= r < n && !One(ls, r, col) ==> ls'[r] == ls[r])
  }

  lemma ColumnTaken(
      ls: Lines, ls': Lines, n: nat, asg: Partial, col: nat, val: bool, end: nat, tight: seq<nat>)
    requires Wide(ls, n, |asg|) && Linked(ls, n, asg) && Stairs(ls, n, tight, 0)
    requires col < |tight| <= |asg| && asg[col] == None && tight[col] <= end <= n && |ls'| == |ls|
    requires forall r :: 0 <= r < end ==> ls'[r] == Line(SetColumn(ls[r].mat, col, val), ls[r].vs)
    requires forall r :: end <= r < |ls| ==> ls'[r] == ls[r]
    ensures Wide(ls', n, |asg|) && Linked(ls', n, asg[col := Some(val)])
    ensures TakenOut(ls, ls', n, col) && Stairs(ls', n, tight, 0)
  {
    forall r | 0 <= r < n && !One(ls, r, col)
      ensures ls'[r] == ls[r]
    {
      assert ls[r].mat.bits[col := false] == ls[r].mat.bits;
    }
    forall r | 0 <= r < n
      ensures ls'[r].mat == SetColumn(ls[r].mat, col, val)
      ensures ls'[r].mat == Reduced(ls'[r].vs, asg[col := Some(val)])
    {
      ReducedSet(ls[r].vs, asg, col, val);
      if r >= end {
        assert !One(ls, r, col);
        assert ls[r].mat.bits[col := false] == ls[r].mat.bits;
      }
    }
    forall c, r, k | 0 <= c < |tight| && tight[c] <= r < n && 0 <= k <= c
      ensures !One(ls', r, k)
    {
      assert !One(ls, r, k);
    }
  }

  /** A row with no ones in the padding is its own reduction when only the padding is set. */
  lemma FreshReduced(r: Row, cols: nat, asg: Partial)
    requires |r.bits| == |asg| && cols <= |asg| && ZeroFrom(r.bits, cols)
    requires forall c :: 0 <= c < |asg| ==> asg[c] == if c < cols then None else Some(false)
    ensures Reduced(r, asg) == r
  {
    DotZero(r.bits, Known(asg));
    assert Unset(r.bits, asg) == r.bits;
  }

  lemma ClipKeeps(
      colToVar: seq<Option<nat>>, tight: seq<nat>, first: seq<nat>, last0: seq<nat>, last: seq<nat>, n: nat, i: nat)
    requires |tight| == |last0| == |last| && i <= |last| && LastCovers(tight, last0, |tight|)
    requires LastExact(colToVar, tight, first, last0, n, |tight|) && Counted(tight, first, n, |tight|)
    requires forall c, d :: 0 <= c <= d < |tight| ==> tight[c] <= tight[d]
    requires forall c :: 0 <= c < i ==> last[c] == last0[c]
    requires forall c :: i <= c < |last| ==> last0[c] >= n && last[c] == n
    requires i == 0 || last0[i - 1] < n
    ensures LastExact(colToVar, tight, first, last, n, |tight|) && LastWithin(colToVar, last, n)
  {
    forall c | 0 <= c < |tight| && Active(colToVar, c)
      ensures LastAt(tight, first, last, n, c) && last[c] <= n
    {
      assert LastAt(tight, first, last0, n, c);
      if c < i {
        assert tight[c] <= tight[i - 1] <= last0[i - 1];
      }
    }
  }
}
