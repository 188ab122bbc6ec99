/**
 `MatrixFinder::findMatrixes`: the variables of the xor clauses are divided into
 classes, one for each matrix.  Two variables end up in one class exactly if a chain of
 clauses connects them, so each matrix can be eliminated on its own.
 */
module MatrixFinder {
  import opened Rewriting

  type Xors = seq<seq<nat>>

  /** Each variable of the chain shares a clause with the next. */
  ghost predicate Chain(xs: Xors, p: seq<nat>) {
    forall i :: 0 <= i < |p| - 1 ==> Share(xs, p[i], p[i + 1])
  }

  ghost predicate Share(xs: Xors, u: nat, v: nat) {
    exists c :: c in xs && u in c && v in c
  }

  ghost predicate Connected(xs: Xors, u: nat, v: nat) {
    exists p :: |p| > 0 && p[0] == u && p[|p| - 1] == v && Chain(xs, p)
  }

  lemma ConnectedTrans(xs: Xors, u: nat, v: nat, w: nat)
    requires Connected(xs, u, v) && Connected(xs, v, w)
    ensures Connected(xs, u, w)
  {
    var p :| |p| > 0 && p[0] == u && p[|p| - 1] == v && Chain(xs, p);
    var q :| |q| > 0 && q[0] == v && q[|q| - 1] == w && Chain(xs, q);
    var r := p + q[1..];
    forall i | 0 <= i < |r| - 1 ensures Share(xs, r[i], r[i + 1]) {
      if i >= |p| - 1 {
        assert r[i] == q[i - (|p| - 1)] && r[i + 1] == q[i + 1 - (|p| - 1)];
      }
    }
    assert r[|r| - 1] == w;
  }

  lemma ShareConnects(xs: Xors, u: nat, v: nat)
    requires Share(xs, u, v)
    ensures Connected(xs, u, v)
  {
    var p := [u, v];
    assert Chain(xs, p);
  }

  lemma ConnectedMore(xs: Xors, ys: Xors, u: nat, v: nat)
    requires Connected(xs, u, v) && forall c :: c in xs ==> c in ys
    ensures Connected(ys, u, v)
  {
    var p :| |p| > 0 && p[0] == u && p[|p| - 1] == v && Chain(xs, p);
    forall i | 0 <= i < |p| - 1 ensures Share(ys, p[i], p[i + 1]) {
      assert Share(xs, p[i], p[i + 1]);
    }
    assert Chain(ys, p);
  }

  ghost predicate Occurs(xs: Xors, v: nat) {
    exists c :: c in xs && v in c
  }

  /** The classes agree with the clauses: same clause, same class; same class, connected. */
  ghost predicate Classes(xs: Xors, n: nat, table: seq<Option<nat>>) {
    && |table| == n
    && (forall v :: 0 <= v < n ==> (table[v].Some? <==> Occurs(xs, v)))
    && (forall c, u, v :: c in xs && u in c && v in c ==> u < n && v < n && table[u] == table[v])
    && (forall u, v :: 0 <= u < n && 0 <= v < n && table[u].Some? && table[u] == table[v] ==> Connected(xs, u, v))
  }

  predicate InClass(rt: map<nat, seq<nat>>, m: nat, v: nat) {
    m in rt && v in rt[m]
  }

  /** The lists by class hold what the table says. */
  ghost predicate Reverse(table: seq<Option<nat>>, rt: map<nat, seq<nat>>, no: nat) {
    && (forall v: nat :: v < |table| && table[v].Some? ==> InClass(rt, table[v].value, v))
    && (forall m: nat, v: nat :: InClass(rt, m, v) ==> v < |table| && table[v] == Some(m))
    && (forall m :: m in rt ==> m < no)
  }

  /** Variables have the same class exactly if they are connected. */
  lemma {:induction false} ClassesAreComponents(xs: Xors, n: nat, table: seq<Option<nat>>, u: nat, v: nat)
    requires Classes(xs, n, table) && Occurs(xs, u) && Occurs(xs, v)
    ensures u < n && v < n && (table[u] == table[v] <==> Connected(xs, u, v))
  {
    var c :| c in xs && u in c;
    var d :| d in xs && v in d;
    if Connected(xs, u, v) {
      var p :| |p| > 0 && p[0] == u && p[|p| - 1] == v && Chain(xs, p);
      ChainOneClass(xs, n, table, p);
    }
  }

  lemma {:induction false} ChainOneClass(xs: Xors, n: nat, table: seq<Option<nat>>, p: seq<nat>)
    requires Classes(xs, n, table) && |p| > 0 && p[0] < n && Chain(xs, p)
    ensures p[|p| - 1] < n && table[p[0]] == table[p[|p| - 1]]
  {
    if |p| > 1 {
      assert Share(xs, p[0], p[1]);
      var c :| c in xs && p[0] in c && p[1] in c;
      forall i | 0 <= i < |p[1..]| - 1 ensures Share(xs, p[1..][i], p[1..][i + 1]) {
        assert Share(xs, p[i + 1], p[i + 2]);
      }
      ChainOneClass(xs, n, table, p[1..]);
    }
  }

  /** Setting the class of the listed variables. */
  function SetAll(table: seq<Option<nat>>, vs: seq<nat>, m: nat): (r: seq<Option<nat>>)
    ensures |r| == |table|
    ensures forall v :: 0 <= v < |table| ==> r[v] == if v in vs then Some(m) else table[v]
  {
    seq(|table|, v requires 0 <= v < |table| => if v in vs then Some(m) else table[v])
  }

  /** `members` are the variables of clause `c` and of every class that has one of them. */
  ghost predicate Merged(table: seq<Option<nat>>, c: seq<nat>, members: seq<nat>) {
    && (forall v :: v in c ==> v in members)
    && (forall v :: v in members ==> v < |table|)
    && (forall v :: v in members && v !in c ==>
          exists u :: u in c && u < |table| && table[u].Some? && table[v] == table[u])
    && (forall u, v :: u in c && u < |table| && table[u].Some? && 0 <= v < |table| && table[v] == table[u] ==>
          v in members)
  }

  lemma MemberConnects(xs: Xors, n: nat, table: seq<Option<nat>>, c: seq<nat>, members: seq<nat>, w: nat, a: nat)
    requires Classes(xs, n, table) && Merged(table, c, members) && w in members && a in c
    ensures Connected(xs + [c], w, a)
  {
    assert c in xs + [c];
    if w in c {
      ShareConnects(xs + [c], w, a);
    } else {
      var u :| u in c && u < |table| && table[u].Some? && table[w] == table[u];
      ConnectedMore(xs, xs + [c], w, u);
      ShareConnects(xs + [c], u, a);
      ConnectedTrans(xs + [c], w, u, a);
    }
  }

  lemma ConnectedSym(xs: Xors, u: nat, v: nat)
    requires Connected(xs, u, v)
    ensures Connected(xs, v, u)
  {
    var p :| |p| > 0 && p[0] == u && p[|p| - 1] == v && Chain(xs, p);
    var r := seq(|p|, i requires 0 <= i < |p| => p[|p| - 1 - i]);
    forall i | 0 <= i < |r| - 1 ensures Share(xs, r[i], r[i + 1]) {
      var j := |p| - 2 - i;
      assert Share(xs, p[j], p[j + 1]);
    }
    assert Chain(xs, r);
  }

  /** One more clause, whose variables and their classes become class `m`. */
  lemma MergeClasses(xs: Xors, n: nat, table: seq<Option<nat>>, c: seq<nat>, members: seq<nat>, m: nat)
    requires Classes(xs, n, table) && Merged(table, c, members) && c != [] && (forall v :: v in c ==> v < n)
    requires forall v :: 0 <= v < n && table[v] == Some(m) ==> v in members
    ensures Classes(xs + [c], n, SetAll(table, members, m))
  {
    var ys, t := xs + [c], SetAll(table, members, m);
    assert c in ys && c[0] in c;
    forall v | 0 <= v < n ensures t[v].Some? <==> Occurs(ys, v) {
      if Occurs(xs, v) {
        var d :| d in xs && v in d;
        assert d in ys;
      }
    }
    forall d, u, v | d in ys && u in d && v in d ensures u < n && v < n && t[u] == t[v] {
      if d in xs {
        assert table[u] == table[v];
        MembersWhole(table, c, members, u, v);
      }
    }
    forall u, v | 0 <= u < n && 0 <= v < n && t[u].Some? && t[u] == t[v] ensures Connected(ys, u, v) {
      if u in members && v in members {
        MemberConnects(xs, n, table, c, members, u, c[0]);
        MemberConnects(xs, n, table, c, members, v, c[0]);
        ConnectedSym(ys, v, c[0]);
        ConnectedTrans(ys, u, c[0], v);
      } else {
        ConnectedMore(xs, ys, u, v);
      }
    }
  }

  /** The members are whole classes. */
  lemma MembersWhole(table: seq<Option<nat>>, c: seq<nat>, members: seq<nat>, u: nat, v: nat)
    requires Merged(table, c, members) && u < |table| && v < |table| && table[u] == table[v] && table[u].Some?
    ensures u in members <==> v in members
  {
    if u in members {
      var x := if u in c then u else var y :| y in c && y < |table| && table[y].Some? && table[u] == table[y]; y;
      assert x in c && table[x] == table[v];
    }
    if v in members {
      var x := if v in c then v else var y :| y in c && y < |table| && table[y].Some? && table[v] == table[y]; y;
      assert x in c && table[x] == table[u];
    }
  }

  /** The values of the set are the classes that clause `c` touches so far. */
  ghost predicate Touches(table: seq<Option<nat>>, c: seq<nat>, n: nat, tomerge: set<nat>, newSet: seq<nat>)
    requires n <= |c|
  {
    && (forall m: nat :: m in tomerge <==> exists k :: 0 <= k < n && c[k] < |table| && table[c[k]] == Some(m))
    && (forall v: nat :: v in newSet <==> v < |table| && table[v].None? && v in c[..n])
  }

  ghost predicate TouchesOnly(table: seq<Option<nat>>, c: seq<nat>, m: nat) {
    && (exists k :: 0 <= k < |c| && c[k] < |table| && table[c[k]] == Some(m))
    && (forall k :: 0 <= k < |c| && c[k] < |table| && table[c[k]].Some? ==> table[c[k]] == Some(m))
  }

  /** A clause that touches one class joins it and takes no number; any other makes the next number's class. */
  ghost predicate Numbered(table: seq<Option<nat>>, table': seq<Option<nat>>, c: seq<nat>, no: nat, no': nat) {
    && |table'| == |table| && (forall v :: v in c ==> v < |table|)
    && if exists m: nat :: TouchesOnly(table, c, m) then
         no' == no && forall v :: 0 <= v < |table| && table[v].Some? ==> table'[v] == table[v]
       else no' == no + 1 && forall v :: v in c ==> table'[v] == Some(no)
  }

  lemma TouchedOne(table: seq<Option<nat>>, c: seq<nat>, newSet: seq<nat>, m: nat)
    requires Touches(table, c, |c|, {m}, newSet)
    ensures TouchesOnly(table, c, m) && forall v :: v in newSet ==> v < |table| && table[v].None?
  {
    forall k | 0 <= k < |c| && c[k] < |table| && table[c[k]].Some?
      ensures table[c[k]] == Some(m)
    {
      var x := table[c[k]].value;
      assert x in {m};
    }
    assert m in {m};
  }

  lemma TouchedMore(table: seq<Option<nat>>, c: seq<nat>, tomerge: set<nat>, newSet: seq<nat>)
    requires Touches(table, c, |c|, tomerge, newSet) && |tomerge| != 1
    ensures !exists m: nat :: TouchesOnly(table, c, m)
  {
    forall m: nat
      ensures TouchesOnly(table, c, m) ==> |tomerge| == 1
    {
      assert TouchesOnly(table, c, m) ==> tomerge == {m};
    }
  }

  class Finder {
    var table: seq<Option<nat>>
    var reverseTable: map<nat, seq<nat>>
    var matrixNo: nat

    /** The core of `findMatrixes`. */
    method FindMatrixes(xs: Xors, nVars: nat)
      requires forall c :: c in xs ==> c != [] && forall v :: v in c ==> v < nVars
      modifies this
      ensures Classes(xs, nVars, table) && Reverse(table, reverseTable, matrixNo) && matrixNo <= |xs|
    {
      table := seq(nVars, _ => None);
      reverseTable := map[];
      matrixNo := 0;
      for i := 0 to |xs|
        invariant Classes(xs[..i], nVars, table) && Reverse(table, reverseTable, matrixNo) && matrixNo <= i
      {
        assert xs[i] in xs && xs[..i + 1] == xs[..i] + [xs[i]];
        AddClause(xs[..i], xs[i], nVars);
      }
      assert xs[..|xs|] == xs;
    }

    /** The classes a clause touches, and its variables that have none. */
    method Collect(c: seq<nat>) returns (tomerge: set<nat>, newSet: seq<nat>)
      requires forall v :: v in c ==> v < |table|
      ensures Touches(table, c, |c|, tomerge, newSet)
    {
      tomerge, newSet := {}, [];
      for k := 0 to |c|
        invariant Touches(table, c, k, tomerge, newSet)
      {
        assert c[k] in c && c[..k + 1] == c[..k] + [c[k]];
        if table[c[k]].Some? {
          tomerge := tomerge + {table[c[k]].value};
        } else {
          newSet := newSet + [c[k]];
        }
      }
    }

    /** One clause: its new variables join its only class, or a new class is made of all it touches. */
    method AddClause(ghost xs: Xors, c: seq<nat>, nVars: nat)
      requires Classes(xs, nVars, table) && Reverse(table, reverseTable, matrixNo)
      requires c != [] && forall v :: v in c ==> v < nVars
      modifies this
      ensures Classes(xs + [c], nVars, table) && Reverse(table, reverseTable, matrixNo)
      ensures Numbered(old(table), table, c, old(matrixNo), matrixNo)
    {
      var tomerge, newSet := Collect(c);
      assert c[..|c|] == c;
      if |tomerge| == 1 {
        var into :| into in tomerge;
        OnlyOne(tomerge, into);
        TouchedOne(table, c, newSet, into);
        JoinClass(xs, c, nVars, newSet, into);
        return;
      }
      TouchedMore(table, c, tomerge, newSet);
      MergeAll(xs, c, nVars, tomerge, newSet);
    }

    /** Gives the listed variables class `m` in the table. */
    method SetTable(vs: seq<nat>, m: nat)
      requires forall v :: v in vs ==> v < |table|
      modifies this`table
      ensures table == SetAll(old(table), vs, m)
    {
      for i := 0 to |vs|
        invariant table == SetAll(old(table), vs[..i], m)
      {
        assert vs[i] in vs && vs[..i + 1] == vs[..i] + [vs[i]];
        table := table[vs[i] := Some(m)];
      }
      assert vs[..|vs|] == vs;
    }

    method JoinClass(ghost xs: Xors, c: seq<nat>, nVars: nat, newSet: seq<nat>, into: nat)
      requires Classes(xs, nVars, table) && Reverse(table, reverseTable, matrixNo)
      requires c != [] && (forall v :: v in c ==> v < nVars) && Touches(table, c, |c|, {into}, newSet) && c[..|c|] == c
      modifies this`table, this`reverseTable
      ensures Classes(xs + [c], nVars, table) && Reverse(table, reverseTable, matrixNo)
      ensures table == SetAll(old(table), newSet, into)
    {
      JoinedMerged(xs, nVars, table, reverseTable, matrixNo, c, newSet, into);
      assert |table| == nVars && forall v: nat :: v in newSet ==> v < |table| && table[v].None?;
      hide Classes, Reverse, Merged, Touches;
      MergeClasses(xs, nVars, table, c, reverseTable[into] + newSet, into);
      JoinedReverse(table, reverseTable, matrixNo, newSet, into);
      reverseTable := reverseTable[into := reverseTable[into] + newSet];
      SetTable(newSet, into);
    }

    method MergeAll(ghost xs: Xors, c: seq<nat>, nVars: nat, tomerge: set<nat>, newSet0: seq<nat>)
      requires Classes(xs, nVars, table) && Reverse(table, reverseTable, matrixNo) && |table| == nVars
      requires c != [] && (forall v :: v in c ==> v < nVars) && Touches(table, c, |c|, tomerge, newSet0)
      requires c[..|c|] == c
      modifies this
      ensures Classes(xs + [c], nVars, table) && Reverse(table, reverseTable, matrixNo)
      ensures matrixNo == old(matrixNo) + 1 && |table| == |old(table)|
      ensures forall v :: v in c ==> table[v] == Some(old(matrixNo))
    {
      hide Classes, Reverse, Merged, Touches, Gathered, OfClasses;
      ghost var rt0 := reverseTable;
      var newSet, rest := newSet0, tomerge;
      TouchedKeys(xs, nVars, table, rt0, matrixNo, c, tomerge, newSet0);
      NoneGathered(rt0, newSet0);
      assert tomerge - rest == {} && rt0 - {} == rt0;
      while rest != {}
        invariant rest <= tomerge && table == old(table) && matrixNo == old(matrixNo)
        invariant reverseTable == rt0 - (tomerge - rest) && Gathered(rt0, tomerge - rest, newSet0, newSet)
        decreases |rest|
      {
        var it :| it in rest;
        assert it in rt0 && it in reverseTable && reverseTable[it] == rt0[it];
        GatherStep(rt0, tomerge - rest, newSet0, newSet, it);
        assert tomerge - (rest - {it}) == (tomerge - rest) + {it};
        newSet := newSet + reverseTable[it];
        reverseTable := reverseTable - {it};
        rest := rest - {it};
      }
      assert tomerge - rest == tomerge;
      GatheredClasses(table, rt0, matrixNo, c, tomerge, newSet0, newSet);
      ClassesMerged(table, c, tomerge, newSet0, newSet);
      MergedReverse(table, rt0, matrixNo, c, tomerge, newSet);
      MergeClasses(xs, nVars, table, c, newSet, matrixNo);
      MembersInRange(table, c, tomerge, newSet);
      SetTable(newSet, matrixNo);
      reverseTable := reverseTable[matrixNo := newSet];
      matrixNo := matrixNo + 1;
    }

    /** The first loop of `setMatrixes`: every clause goes to the matrix of its first variable. */
    method SetMatrixes(xs: Xors, nVars: nat) returns (xorsInMatrix: seq<seq<nat>>)
      requires Classes(xs, nVars, table) && Reverse(table, reverseTable, matrixNo) && forall c :: c in xs ==> c != []
      ensures Partition(xs, table, matrixNo, xorsInMatrix, |xs|)
      ensures forall k: nat, j: nat :: k < |xs| && j < |xs| && xs[k] != [] && xs[j] != [] ==>
        (SameMatrix(xorsInMatrix, k, j) <==> Connected(xs, xs[k][0], xs[j][0]))
    {
      hide Classes, Reverse, Partition, SameMatrix;
      xorsInMatrix := seq(matrixNo, _ => []);
      NoPartition(xs, table, matrixNo, xorsInMatrix);
      for k := 0 to |xs|
        invariant |xorsInMatrix| == matrixNo && Partition(xs, table, matrixNo, xorsInMatrix, k)
      {
        assert xs[k] in xs;
        FirstOccurs(xs, nVars, table, reverseTable, matrixNo, k);
        TableSize(xs, nVars, table);
        var matrix := table[xs[k][0]].value;
        PartitionStep(xs, table, matrixNo, xorsInMatrix, k, matrix);
        xorsInMatrix := xorsInMatrix[matrix := xorsInMatrix[matrix] + [k]];
      }
      forall k: nat, j: nat | k < |xs| && j < |xs| && xs[k] != [] && xs[j] != []
        ensures SameMatrix(xorsInMatrix, k, j) <==> Connected(xs, xs[k][0], xs[j][0])
      {
        assert xs[k] in xs && xs[j] in xs;
        FirstOccurs(xs, nVars, table, reverseTable, matrixNo, k);
        FirstOccurs(xs, nVars, table, reverseTable, matrixNo, j);
        TableSize(xs, nVars, table);
        ClassesAreComponents(xs, nVars, table, xs[k][0], xs[j][0]);
        MatrixByTable(xs, table, matrixNo, xorsInMatrix, k, j);
      }
    }
  }

  /** The first `n` clauses are in the lists of their first variables' classes, and only there. */
  ghost predicate Partition(xs: Xors, table: seq<Option<nat>>, no: nat, lists: seq<seq<nat>>, n: nat) {
    && |lists| == no
    && (forall m: nat, j: nat :: Listed(lists, m, j) ==>
          j < n && j < |xs| && xs[j] != [] && xs[j][0] < |table| && table[xs[j][0]] == Some(m))
    && (forall j: nat :: j < n && j < |xs| && xs[j] != [] && xs[j][0] < |table| ==>
        table[xs[j][0]].Some? && Listed(lists, table[xs[j][0]].value, j))
  }

  /** Two clauses are in one matrix. */
  ghost predicate SameMatrix(lists: seq<seq<nat>>, k: nat, j: nat) {
    exists m: nat :: Listed(lists, m, k) && Listed(lists, m, j)
  }

  lemma NoPartition(xs: Xors, table: seq<Option<nat>>, no: nat, lists: seq<seq<nat>>)
    requires |lists| == no && forall m :: 0 <= m < no ==> lists[m] == []
    ensures Partition(xs, table, no, lists, 0)
  {
  }

  predicate Listed(lists: seq<seq<nat>>, m: nat, j: nat) {
    m < |lists| && j in lists[m]
  }

  lemma PartitionStep(xs: Xors, table: seq<Option<nat>>, no: nat, lists: seq<seq<nat>>, k: nat, m: nat)
    requires Partition(xs, table, no, lists, k) && k < |xs| && xs[k] != [] && xs[k][0] < |table|
    requires table[xs[k][0]] == Some(m) && m < no
    ensures |lists| == no && Partition(xs, table, no, lists[m := lists[m] + [k]], k + 1)
  {
    var lists' := lists[m := lists[m] + [k]];
    forall i: nat, j: nat | Listed(lists', i, j)
      ensures j < k + 1 && xs[j] != [] && xs[j][0] < |table| && table[xs[j][0]] == Some(i)
    {
      assert (i == m && j == k) || Listed(lists, i, j);
    }
    forall j: nat | j < k + 1 && xs[j] != [] && xs[j][0] < |table|
      ensures table[xs[j][0]].Some? && Listed(lists', table[xs[j][0]].value, j)
    {
      assert j < k ==> Listed(lists, table[xs[j][0]].value, j);
    }
  }

  lemma TableSize(xs: Xors, n: nat, table: seq<Option<nat>>)
    requires Classes(xs, n, table)
    ensures |table| == n
  {
  }

  lemma MatrixByTable(xs: Xors, table: seq<Option<nat>>, no: nat, lists: seq<seq<nat>>, k: nat, j: nat)
    requires Partition(xs, table, no, lists, |xs|) && k < |xs| && j < |xs| && xs[k] != [] && xs[j] != []
    requires xs[k][0] < |table| && xs[j][0] < |table|
    ensures SameMatrix(lists, k, j) <==> table[xs[k][0]] == table[xs[j][0]]
  {
  }

  lemma FirstOccurs(xs: Xors, n: nat, table: seq<Option<nat>>, rt: map<nat, seq<nat>>, no: nat, k: nat)
    requires Classes(xs, n, table) && Reverse(table, rt, no) && k < |xs| && xs[k] != []
    ensures xs[k][0] < n == |table| && Occurs(xs, xs[k][0]) && table[xs[k][0]].Some? && table[xs[k][0]].value < no
  {
    assert xs[k] in xs && xs[k][0] in xs[k];
    assert table[xs[k][0]].Some? ==> InClass(rt, table[xs[k][0]].value, xs[k][0]);
  }

  lemma NoneGathered(rt0: map<nat, seq<nat>>, newSet0: seq<nat>)
    ensures Gathered(rt0, {}, newSet0, newSet0)
  {
  }

  lemma MembersInRange(t0: seq<Option<nat>>, c: seq<nat>, tomerge: set<nat>, members: seq<nat>)
    requires OfClasses(t0, c, tomerge, members)
    ensures forall v :: v in members ==> v < |t0|
  {
  }

  lemma OnlyOne(s: set<nat>, x: nat)
    requires |s| == 1 && x in s
    ensures s == {x}
  {
    assert |s - {x}| == 0;
  }

  /** With one class touched, its variables and the new ones are the merged ones. */
  lemma JoinedMerged(
      xs: Xors, n: nat, t0: seq<Option<nat>>, rt0: map<nat, seq<nat>>, no: nat, c: seq<nat>, newSet: seq<nat>,
      into: nat)
    requires Classes(xs, n, t0) && Reverse(t0, rt0, no) && (forall v :: v in c ==> v < n)
    requires Touches(t0, c, |c|, {into}, newSet) && c[..|c|] == c
    ensures into in rt0 && Merged(t0, c, rt0[into] + newSet)
    ensures forall v :: 0 <= v < n && t0[v] == Some(into) ==> v in rt0[into] + newSet
  {
    assert into in {into};
    var k :| 0 <= k < |c| && c[k] < |t0| && t0[c[k]] == Some(into);
    assert c[k] in c && InClass(rt0, into, c[k]);
    var members := rt0[into] + newSet;
    forall v: nat | v < |t0| ensures v in rt0[into] <==> t0[v] == Some(into) {
      assert v in rt0[into] <==> InClass(rt0, into, v);
    }
    forall v: nat | v in rt0[into] ensures v < |t0| && t0[v] == Some(into) {
      assert InClass(rt0, into, v);
    }
    forall v | v in c ensures v in members {
      var j :| 0 <= j < |c| && c[j] == v;
      assert t0[v].Some? ==> t0[v].value in {into};
    }
    forall u, v | u in c && u < |t0| && t0[u].Some? && 0 <= v < |t0| && t0[v] == t0[u] ensures v in members {
      var j :| 0 <= j < |c| && c[j] == u;
      assert t0[u].value in {into};
    }
  }

  lemma JoinedReverse(t0: seq<Option<nat>>, rt0: map<nat, seq<nat>>, no: nat, newSet: seq<nat>, into: nat)
    requires Reverse(t0, rt0, no) && into in rt0 && forall v: nat :: v in newSet ==> v < |t0| && t0[v].None?
    ensures Reverse(SetAll(t0, newSet, into), rt0[into := rt0[into] + newSet], no)
    ensures SetAll(t0, newSet, into) == SetAll(t0, rt0[into] + newSet, into)
  {
    var t, rt := SetAll(t0, newSet, into), rt0[into := rt0[into] + newSet];
    forall v: nat | v < |t| && t[v].Some? ensures InClass(rt, t[v].value, v) {
      assert v !in newSet ==> InClass(rt0, t0[v].value, v);
    }
    forall m: nat, v: nat | InClass(rt, m, v) ensures v < |t| && t[v] == Some(m) {
      assert InClass(rt0, m, v) || (m == into && v in newSet);
    }
    forall v: nat | v in rt0[into] ensures v < |t0| && t0[v] == Some(into) {
      assert InClass(rt0, into, v);
    }
  }

  lemma TouchedKeys(
      xs: Xors, n: nat, t0: seq<Option<nat>>, rt0: map<nat, seq<nat>>, no: nat, c: seq<nat>, tomerge: set<nat>,
      newSet: seq<nat>)
    requires Classes(xs, n, t0) && Reverse(t0, rt0, no) && Touches(t0, c, |c|, tomerge, newSet)
    ensures forall m :: m in tomerge ==> m in rt0
  {
    forall m | m in tomerge ensures m in rt0 {
      var k :| 0 <= k < |c| && c[k] < |t0| && t0[c[k]] == Some(m);
      assert InClass(rt0, t0[c[k]].value, c[k]);
    }
  }

  /** What the merged list holds: the new variables, and the classes touched. */
  ghost predicate Gathered(rt0: map<nat, seq<nat>>, done: set<nat>, newSet0: seq<nat>, members: seq<nat>) {
    forall v: nat :: v in members <==> v in newSet0 || exists m :: m in done && InClass(rt0, m, v)
  }

  lemma GatherStep(rt0: map<nat, seq<nat>>, done: set<nat>, newSet0: seq<nat>, members: seq<nat>, it: nat)
    requires Gathered(rt0, done, newSet0, members) && it in rt0
    ensures Gathered(rt0, done + {it}, newSet0, members + rt0[it])
  {
    forall v: nat
      ensures v in members + rt0[it] <==> v in newSet0 || exists m :: m in done + {it} && InClass(rt0, m, v)
    {
      if v in rt0[it] {
        assert it in done + {it} && InClass(rt0, it, v);
      } else if v in members && v !in newSet0 {
        var m :| m in done && InClass(rt0, m, v);
        assert m in done + {it};
      }
    }
  }

  /** The members are exactly the new variables and those whose class is merged. */
  ghost predicate OfClasses(t0: seq<Option<nat>>, c: seq<nat>, tomerge: set<nat>, members: seq<nat>) {
    && (forall v :: v in members ==> v < |t0|)
    && (forall v :: v in members ==> if t0[v].Some? then t0[v].value in tomerge else v in c)
    && (forall v :: 0 <= v < |t0| && (if t0[v].Some? then t0[v].value in tomerge else v in c) ==> v in members)
  }

  lemma GatheredClasses(
      t0: seq<Option<nat>>, rt0: map<nat, seq<nat>>, no: nat, c: seq<nat>, tomerge: set<nat>, newSet0: seq<nat>,
      members: seq<nat>)
    requires Reverse(t0, rt0, no) && Touches(t0, c, |c|, tomerge, newSet0) && c[..|c|] == c
    requires Gathered(rt0, tomerge, newSet0, members) && forall v :: v in c ==> v < |t0|
    ensures OfClasses(t0, c, tomerge, members)
  {
    forall v | v in members ensures v < |t0| && if t0[v].Some? then t0[v].value in tomerge else v in c {
      if v !in newSet0 {
        var m :| m in tomerge && InClass(rt0, m, v);
      }
    }
    forall v | 0 <= v < |t0| && (if t0[v].Some? then t0[v].value in tomerge else v in c) ensures v in members {
      if t0[v].Some? {
        assert InClass(rt0, t0[v].value, v);
      }
    }
  }

  lemma ClassesMerged(t0: seq<Option<nat>>, c: seq<nat>, tomerge: set<nat>, newSet0: seq<nat>, members: seq<nat>)
    requires OfClasses(t0, c, tomerge, members) && Touches(t0, c, |c|, tomerge, newSet0)
    requires forall v :: v in c ==> v < |t0|
    ensures Merged(t0, c, members)
  {
    forall u | u in c && t0[u].Some? ensures t0[u].value in tomerge {
      var j :| 0 <= j < |c| && c[j] == u;
      assert t0[c[j]] == Some(t0[u].value);
    }
    forall v | v in members && v !in c ensures exists u :: u in c && u < |t0| && t0[u].Some? && t0[v] == t0[u] {
      var m := t0[v].value;
      var k :| 0 <= k < |c| && c[k] < |t0| && t0[c[k]] == Some(m);
      assert c[k] in c;
    }
  }

  lemma MergedReverse(
      t0: seq<Option<nat>>, rt0: map<nat, seq<nat>>, no: nat, c: seq<nat>, tomerge: set<nat>, members: seq<nat>)
    requires Reverse(t0, rt0, no) && OfClasses(t0, c, tomerge, members)
    ensures Reverse(SetAll(t0, members, no), (rt0 - tomerge)[no := members], no + 1)
    ensures forall v :: 0 <= v < |t0| ==> t0[v] != Some(no)
  {
    var t, rt := SetAll(t0, members, no), (rt0 - tomerge)[no := members];
    assert no !in rt0;
    forall v: nat | v < |t| && t[v].Some? ensures InClass(rt, t[v].value, v) {
      assert v !in members ==> InClass(rt0, t0[v].value, v);
    }
    forall m: nat, v: nat | InClass(rt, m, v) ensures v < |t| && t[v] == Some(m) {
      assert m != no ==> InClass(rt0, m, v);
    }
    forall v: nat | v < |t0| ensures t0[v] != Some(no) {
      assert t0[v].Some? ==> InClass(rt0, t0[v].value, v);
    }
  }
}
