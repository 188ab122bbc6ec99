/**
 The incremental SAT solver behind `sat_n::Solver`.

 Callers rely on the contract of `Solve` only: it answers whether the clauses
 added so far have a model in which every assumption holds, and if so some such
 model is kept for `ModelValue`.  Which model is left open.  The body searches
 exhaustively; it is there so that the contract is met by something.
 */
module SatSolver {
  import opened Cnf

  class Solver {
    var numVars: nat
    var clauses: seq<Clause>
    var model: Model

    ghost predicate Valid()
      reads this
    {
      Below(clauses, numVars)
    }

    constructor ()
      ensures Valid() && numVars == 0 && clauses == []
    {
      numVars, clauses, model := 0, [], [];
    }

    method NewVar() returns (v: nat)
      requires Valid()
      modifies this`numVars
      ensures Valid()
      ensures v == old(numVars) && numVars == v + 1
    {
      v := numVars;
      numVars := numVars + 1;
    }

    method AddClause(c: Clause)
      requires Valid() && ClauseBelow(c, numVars)
      modifies this`clauses
      ensures Valid()
      ensures clauses == old(clauses) + [c]
    {
      clauses := clauses + [c];
    }

    /** The number of clauses added so far. */
    function NClauses(): nat
      reads this
    {
      |clauses|
    }

    predicate ModelValue(l: Lit)
      reads this
    {
      Holds(model, l)
    }

    method Solve(assumps: seq<Lit>) returns (r: bool)
      requires Valid()
      modifies this`model
      ensures r <==> exists m :: IsModel(m, numVars, clauses, assumps)
      ensures r ==> IsModel(model, numVars, clauses, assumps)
    {
      r, model := Search([], numVars, clauses, assumps);
      assert r ==> IsModel(model, numVars, clauses, assumps);
      if !r {
        forall m: Model
          ensures !IsModel(m, numVars, clauses, assumps)
        {
          assert [] <= m;
        }
      }
    }
  }

  method Search(prefix: Model, n: nat, cs: seq<Clause>, assumps: seq<Lit>) returns (r: bool, m: Model)
    requires |prefix| <= n
    ensures r ==> IsModel(m, n, cs, assumps)
    ensures !r ==> forall m' :: prefix <= m' ==> !IsModel(m', n, cs, assumps)
    decreases n - |prefix|
  {
    m := prefix;
    if |prefix| == n {
      r := Sat(prefix, cs) && AllHold(prefix, assumps);
      assert forall m' :: prefix <= m' && |m'| == n ==> m' == prefix;
      return;
    }
    r, m := Search(prefix + [false], n, cs, assumps);
    if r { return; }
    r, m := Search(prefix + [true], n, cs, assumps);
    if !r {
      forall m' | prefix <= m' && |m'| == n
        ensures !IsModel(m', n, cs, assumps)
      {
        if m'[|prefix|] {
          assert prefix + [true] <= m';
        } else {
          assert prefix + [false] <= m';
        }
      }
    }
  }
}
