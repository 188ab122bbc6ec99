/**
 `ckt_eval_t`: the oracle circuit, evaluated by solving its clauses under
 assumptions for the inputs, with every key input of its own tied to 0.
 */
module Simulator {
  import opened Cnf
  import opened Netlist
  import opened CktCompiler
  import SatSolver

  function Zeros(n: nat): (z: seq<bool>)
    ensures |z| == n && forall i :: 0 <= i < n ==> !z[i]
  {
    seq(n, _ => false)
  }

  /** What the oracle answers for input `x`. */
  ghost function Oracle(c: Ckt, x: seq<bool>): seq<bool>
    requires WellFormed(c) && Acyclic(c) && |x| == |c.cktInputs|
  {
    Outputs(c, Zeros(|c.keyInputs|), x)
  }

  class CktEval {
    const ckt: Ckt
    const S: SatSolver.Solver
    const mappings: seq<Lit>

    ghost predicate Valid()
      reads this, S
    {
      && WellFormed(ckt) && Acyclic(ckt) && S.Valid() && S.numVars == |ckt.nodes| + 2
      && |mappings| == |ckt.nodes| && (forall i :: 0 <= i < |ckt.nodes| ==> mappings[i] == MkLit(i + 1))
      && (forall m :: Sat(m, S.clauses) <==>
            IsVal(ckt, NodeBits(ckt, m)) && KeyOf(ckt, NodeBits(ckt, m)) == Zeros(|ckt.keyInputs|))
    }

    constructor (c: Ckt)
      requires WellFormed(c) && Acyclic(c) && Compilable(c)
      ensures Valid() && ckt == c && fresh(S)
    {
      var solver := new SatSolver.Solver();
      var map_ := InitSolver(c, solver);
      ghost var compiled := solver.clauses;
      for i := 0 to |c.keyInputs|
        invariant solver.Valid() && solver.numVars == |c.nodes| + 2
        invariant forall m :: Sat(m, solver.clauses) <==>
          Sat(m, compiled) && forall j :: 0 <= j < i ==> !Bit(NodeBits(c, m), c.keyInputs[j])
      {
        assert c.keyInputs[i] in c.keyInputs;
        var unit := [Neg(map_[c.keyInputs[i]])];
        ghost var before := solver.clauses;
        solver.AddClause(unit);
        forall m
          ensures Sat(m, solver.clauses) <==> Sat(m, before) && !Bit(NodeBits(c, m), c.keyInputs[i])
        {
          SatAppend(m, before, [unit]);
          assert unit[0] in unit;
          assert Sat(m, [unit]) <==> SatClause(m, unit);
        }
      }
      forall m
        ensures Sat(m, solver.clauses) <==>
          IsVal(c, NodeBits(c, m)) && KeyOf(c, NodeBits(c, m)) == Zeros(|c.keyInputs|)
      {
        KeptHoldAll(c, NodeBits(c, m));
        ZeroKeys(c, NodeBits(c, m));
      }
      ckt, S, mappings := c, solver, map_;
    }

    /** The outputs of the simulated circuit on `inputs`; the assertion that a model exists holds. */
    method Eval(inputs: seq<bool>) returns (outputs: seq<bool>)
      requires Valid() && |inputs| == |ckt.cktInputs|
      modifies S`model
      ensures Valid()
      ensures outputs == Oracle(ckt, inputs)
    {
      var assump := [];
      for i := 0 to |inputs|
        invariant |assump| == i
        invariant forall j :: 0 <= j < i ==>
          ckt.cktInputs[j] in ckt.cktInputs && assump[j] == LitFor(ckt.cktInputs[j] + 1, inputs[j])
      {
        assert ckt.cktInputs[i] in ckt.cktInputs;
        var l := mappings[ckt.cktInputs[i]];
        assump := assump + [if inputs[i] then l else Neg(l)];
      }
      var result := S.Solve(assump);
      ghost var k := Zeros(|ckt.keyInputs|);
      ghost var m := ModelOf(ckt, Netlist.Eval(ckt, k, inputs));
      AssumpsPlaceInputs(ckt, m, inputs, assump);
      assert IsModel(m, S.numVars, S.clauses, assump);
      assert result;
      AssumpsPlaceInputs(ckt, S.model, inputs, assump);
      ValuationIsEval(ckt, NodeBits(ckt, S.model));
      outputs := [];
      for i := 0 to |ckt.outputs|
        invariant |outputs| == i
        invariant forall j :: 0 <= j < i ==> outputs[j] == OutOf(ckt, NodeBits(ckt, S.model))[j]
      {
        assert ckt.outputs[i] in ckt.outputs;
        outputs := outputs + [S.ModelValue(mappings[ckt.outputs[i]])];
      }
    }
  }

  lemma ZeroKeys(c: Ckt, v: Model)
    ensures KeyOf(c, v) == Zeros(|c.keyInputs|) <==>
      forall j :: 0 <= j < |c.keyInputs| ==> !Bit(v, c.keyInputs[j])
  {
    if KeyOf(c, v) == Zeros(|c.keyInputs|) {
      forall j | 0 <= j < |c.keyInputs| ensures !Bit(v, c.keyInputs[j]) {
        assert !KeyOf(c, v)[j];
      }
    }
  }

  /** Assumptions that fix each circuit input to its bit hold exactly when the inputs have those bits. */
  lemma AssumpsPlaceInputs(c: Ckt, m: Model, x: seq<bool>, assump: seq<Lit>)
    requires WellFormed(c) && |x| == |c.cktInputs| == |assump|
    requires forall j :: 0 <= j < |x| ==> assump[j] == LitFor(c.cktInputs[j] + 1, x[j])
    ensures AllHold(m, assump) <==> InOf(c, NodeBits(c, m)) == x
  {
    forall j | 0 <= j < |x|
      ensures Holds(m, assump[j]) <==> InOf(c, NodeBits(c, m))[j] == x[j]
    {
      assert c.cktInputs[j] in c.cktInputs;
    }
    if AllHold(m, assump) {
      forall j | 0 <= j < |x| ensures InOf(c, NodeBits(c, m))[j] == x[j] {
        assert assump[j] in assump;
      }
    }
  }
}
