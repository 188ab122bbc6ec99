/**
 `AllSATCkt::_simplify`: an input cube that implies the output is made smaller by one
 literal after the other, until leaving out any literal would lose the implication.
 Both versions of the source are covered: `fixed` holds the assumptions together with
 the negated output, or with the list of output literals.
 */
module CubeSimplify {
  import opened Cnf
  import SatSolver

  /** No model of the clauses has all these literals. */
  ghost predicate Refuted(n: nat, cs: seq<Clause>, ls: seq<Lit>) {
    forall m :: !IsModel(m, n, cs, ls)
  }

  /** The cube without its literal at `i`. */
  function Without(cube: seq<Lit>, i: nat): seq<Lit>
    requires i < |cube|
  {
    cube[..i] + cube[i + 1..]
  }

  /** The cube implies the output, and no cube with one literal less does. */
  ghost predicate Prime(n: nat, cs: seq<Clause>, before: seq<Lit>, cube: seq<Lit>, after: seq<Lit>) {
    && Refuted(n, cs, before + cube + after)
    && forall i :: 0 <= i < |cube| ==> !Refuted(n, cs, before + Without(cube, i) + after)
  }

  /** A prime cube is minimal: no proper part of its literals, in any order, implies the output. */
  lemma PrimeIsMinimal(n: nat, cs: seq<Clause>, before: seq<Lit>, cube: seq<Lit>, after: seq<Lit>, part: seq<Lit>)
    requires Prime(n, cs, before, cube, after) && (forall l :: l in part ==> l in cube)
    requires exists i :: 0 <= i < |cube| && cube[i] !in part
    ensures !Refuted(n, cs, before + part + after)
  {
    var i :| 0 <= i < |cube| && cube[i] !in part;
    var m :| IsModel(m, n, cs, before + Without(cube, i) + after);
    forall l | l in before + part + after ensures l in before + Without(cube, i) + after {
      if l in part {
        var j :| 0 <= j < |cube| && cube[j] == l;
        assert Without(cube, i)[if j < i then j else j - 1] == l;
      }
    }
    assert IsModel(m, n, cs, before + part + after);
  }

  /** Only which literals are assumed matters. */
  lemma SameLiterals(n: nat, cs: seq<Clause>, a: seq<Lit>, b: seq<Lit>)
    requires forall l :: l in a <==> l in b
    ensures Refuted(n, cs, a) <==> Refuted(n, cs, b)
  {
    forall m ensures IsModel(m, n, cs, a) <==> IsModel(m, n, cs, b) {
    }
  }

  class AllSatCkt {
    const S_simp: SatSolver.Solver
    var inputValues: seq<Lit>
    var simpAssump: seq<Lit>
    var cube: seq<Lit>
    var clause: Clause

    constructor (simp: SatSolver.Solver)
      ensures S_simp == simp
    {
      S_simp := simp;
    }

    /** `_initCubeAndClause`: the clause excludes the cube. */
    method InitCubeAndClause()
      modifies this`cube, this`clause
      ensures cube == inputValues && forall m :: SatClause(m, clause) <==> !AllHold(m, cube)
    {
      cube, clause := inputValues, [];
      for i := 0 to |cube|
        invariant cube == inputValues && |clause| == i && forall k :: 0 <= k < i ==> clause[k] == Neg(cube[k])
      {
        clause := clause + [Neg(cube[i])];
      }
      Excludes(cube, clause);
    }

    /** The assumptions with the literal at `skip` left out. */
    method AssumeWithout(before: seq<Lit>, after: seq<Lit>, skip: nat)
      requires skip < |inputValues|
      modifies this`simpAssump
      ensures simpAssump == before + Without(inputValues, skip) + after
    {
      simpAssump := before;
      var i := 0;
      while i != |inputValues|
        invariant 0 <= i <= |inputValues|
        invariant simpAssump ==
          before + if i <= skip then inputValues[..i] else inputValues[..skip] + inputValues[skip + 1..i]
      {
        if i != skip {
          simpAssump := simpAssump + [inputValues[i]];
        }
        i := i + 1;
      }
      assert inputValues[skip + 1..i] == inputValues[skip + 1..];
      simpAssump := simpAssump + after;
    }

    method Simplify(before: seq<Lit>, after: seq<Lit>)
      requires S_simp.Valid() && cube == inputValues && (forall m :: SatClause(m, clause) <==> !AllHold(m, cube))
      requires Refuted(S_simp.numVars, S_simp.clauses, before + inputValues + after)
      modifies this, S_simp`model
      ensures Prime(S_simp.numVars, S_simp.clauses, before, inputValues, after)
      ensures cube == inputValues && (forall m :: SatClause(m, clause) <==> !AllHold(m, cube))
      ensures multiset(inputValues) <= multiset(old(inputValues))
      decreases |inputValues|
    {
      var skip := 0;
      while skip != |inputValues|
        invariant 0 <= skip <= |inputValues| && S_simp.Valid()
        invariant inputValues == old(inputValues) && cube == old(cube) && clause == old(clause)
        invariant forall i :: 0 <= i < skip ==>
          !Refuted(S_simp.numVars, S_simp.clauses, before + Without(inputValues, i) + after)
      {
        AssumeWithout(before, after, skip);
        var r := S_simp.Solve(simpAssump);
        if !r {
          assert Refuted(S_simp.numVars, S_simp.clauses, before + Without(inputValues, skip) + after);
          SwapOut(inputValues, skip, before, after, S_simp.numVars, S_simp.clauses);
          inputValues := inputValues[skip := inputValues[|inputValues| - 1]];
          inputValues := inputValues[..|inputValues| - 1];
          InitCubeAndClause();
          Simplify(before, after);
          return;
        }
        assert !Refuted(S_simp.numVars, S_simp.clauses, before + Without(inputValues, skip) + after);
        skip := skip + 1;
      }
    }
  }

  lemma Excludes(cube: seq<Lit>, clause: Clause)
    requires |clause| == |cube| && forall k :: 0 <= k < |cube| ==> clause[k] == Neg(cube[k])
    ensures forall m :: SatClause(m, clause) <==> !AllHold(m, cube)
  {
    forall m ensures SatClause(m, clause) <==> !AllHold(m, cube) {
      if l :| l in cube && !Holds(m, l) {
        var k :| 0 <= k < |cube| && cube[k] == l;
        assert clause[k] in clause && Holds(m, clause[k]);
      }
      if SatClause(m, clause) {
        var l :| l in clause && Holds(m, l);
        var k :| 0 <= k < |clause| && clause[k] == l;
        assert cube[k] in cube;
      }
    }
  }

  /** The last literal takes the place of the one left out. */
  lemma SwapOut(cube: seq<Lit>, skip: nat, before: seq<Lit>, after: seq<Lit>, n: nat, cs: seq<Clause>)
    requires skip < |cube|
    ensures var r := cube[skip := cube[|cube| - 1]][..|cube| - 1];
      (Refuted(n, cs, before + r + after) <==> Refuted(n, cs, before + Without(cube, skip) + after)) &&
      multiset(r) <= multiset(cube)
  {
    var last := |cube| - 1;
    var r := cube[skip := cube[last]][..last];
    var w := Without(cube, skip);
    if skip == last {
      assert r == w;
    } else {
      assert r == cube[..skip] + [cube[last]] + cube[skip + 1..last];
      assert w == cube[..skip] + (cube[skip + 1..last] + [cube[last]]);
    }
    SameLiterals(n, cs, before + r + after, before + w + after);
    assert cube == cube[..skip] + [cube[skip]] + cube[skip + 1..];
    assert multiset(r) == multiset(w);
  }
}
