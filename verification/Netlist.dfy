/**
 A locked netlist: nodes addressed by their index, each a circuit input, a key
 input or a gate over other nodes.  A valuation gives every node a bit so that
 each gate has the value of its function; an acyclic netlist has exactly one
 valuation for each choice of input bits.
 */
module Netlist {
  import opened Cnf

  datatype Func = And | Or | Nand | Nor | Xor | Xnor | Not | Buf | Mux

  /** `added` marks the comparator gates that circuit doubling appends. */
  datatype Node = CktIn | KeyIn | Gate(func: Func, fanins: seq<nat>, added: bool)

  datatype Ckt = Ckt(
    nodes: seq<Node>, cktInputs: seq<nat>, keyInputs: seq<nat>,
    gates: seq<nat>, outputs: seq<nat>)

  /** The fanin counts for which a function is defined. */
  predicate ArityOk(f: Func, n: nat) {
    match f
    case And | Or | Nand | Nor | Xor | Xnor => n >= 1
    case Not | Buf => n == 1
    case Mux => n == 3
  }

  /** The fanin counts for which a clause provider exists. */
  predicate Providable(f: Func, n: nat) {
    match f
    case And | Nand | Nor => n >= 2
    case Or => n >= 1
    case Xor | Xnor => n == 2
    case Not | Buf => n == 1
    case Mux => n == 3
  }

  predicate AllTrue(xs: seq<bool>) {
    forall i :: 0 <= i < |xs| ==> xs[i]
  }

  predicate AnyTrue(xs: seq<bool>) {
    exists i :: 0 <= i < |xs| && xs[i]
  }

  function Parity(xs: seq<bool>): (b: bool)
    ensures |xs| == 2 ==> b == (xs[0] != xs[1])
  {
    if xs == [] then false
    else
      assert |xs| == 2 ==> xs[..1][..0] == [] && Parity(xs[..1][..0]) == false;
      Parity(xs[..|xs| - 1]) != xs[|xs| - 1]
  }

  function Apply(f: Func, xs: seq<bool>): bool
    requires ArityOk(f, |xs|)
  {
    match f
    case And => AllTrue(xs)
    case Or => AnyTrue(xs)
    case Nand => !AllTrue(xs)
    case Nor => !AnyTrue(xs)
    case Xor => Parity(xs)
    case Xnor => !Parity(xs)
    case Not => !xs[0]
    case Buf => xs[0]
    case Mux => if xs[0] then xs[2] else xs[1]
  }

  function Vals(v: Model, ins: seq<nat>): (r: seq<bool>)
    ensures |r| == |ins|
  {
    seq(|ins|, k requires 0 <= k < |ins| => Bit(v, ins[k]))
  }

  ghost predicate GateShape(n: Node, size: nat) {
    n.Gate? ==> ArityOk(n.func, |n.fanins|) && forall j :: j in n.fanins ==> j < size
  }

  ghost predicate WellFormed(c: Ckt) {
    && (forall i :: 0 <= i < |c.nodes| ==> GateShape(c.nodes[i], |c.nodes|))
    && (forall i: nat :: i in c.cktInputs <==> i < |c.nodes| && c.nodes[i].CktIn?)
    && (forall i: nat :: i in c.keyInputs <==> i < |c.nodes| && c.nodes[i].KeyIn?)
    && (forall i: nat :: i in c.gates <==> i < |c.nodes| && c.nodes[i].Gate?)
    && NoDup(c.cktInputs) && NoDup(c.keyInputs) && NoDup(c.gates)
    && (forall o :: o in c.outputs ==> o < |c.nodes|)
  }

  /** Every gate has a clause provider. */
  ghost predicate Compilable(c: Ckt) {
    forall i :: 0 <= i < |c.nodes| && c.nodes[i].Gate? ==> Providable(c.nodes[i].func, |c.nodes[i].fanins|)
  }

  ghost predicate RanksNodes(ns: seq<Node>, rank: seq<nat>) {
    && |rank| == |ns|
    && forall i, j :: 0 <= i < |ns| && ns[i].Gate? && j in ns[i].fanins && j < |ns| ==> rank[j] < rank[i]
  }

  ghost predicate AcyclicNodes(ns: seq<Node>) {
    exists rank :: RanksNodes(ns, rank)
  }

  ghost predicate IsRank(c: Ckt, rank: seq<nat>) {
    RanksNodes(c.nodes, rank)
  }

  ghost predicate Acyclic(c: Ckt) {
    exists rank :: IsRank(c, rank)
  }

  ghost predicate GateHolds(c: Ckt, v: Model, i: nat)
    requires WellFormed(c) && i < |c.nodes|
  {
    c.nodes[i].Gate? ==> Bit(v, i) == Apply(c.nodes[i].func, Vals(v, c.nodes[i].fanins))
  }

  /** `v` assigns every node a bit consistently with all gate functions. */
  ghost predicate IsVal(c: Ckt, v: Model)
    requires WellFormed(c)
  {
    |v| == |c.nodes| && forall i :: 0 <= i < |c.nodes| ==> GateHolds(c, v, i)
  }

  function KeyOf(c: Ckt, v: Model): (k: seq<bool>)
    ensures |k| == |c.keyInputs|
  {
    Vals(v, c.keyInputs)
  }

  function InOf(c: Ckt, v: Model): (x: seq<bool>)
    ensures |x| == |c.cktInputs|
  {
    Vals(v, c.cktInputs)
  }

  function OutOf(c: Ckt, v: Model): (y: seq<bool>)
    ensures |y| == |c.outputs|
  {
    Vals(v, c.outputs)
  }

  /** Key and input vectors of the right lengths for `c`. */
  predicate Fits(c: Ckt, k: seq<bool>, x: seq<bool>) {
    |k| == |c.keyInputs| && |x| == |c.cktInputs|
  }

  // ----- existence and uniqueness of valuations -----

  /** The valuation that gives inputs the bits of `base`, computed along a rank. */
  ghost function ValueAt(c: Ckt, rank: seq<nat>, base: Model, i: nat): bool
    requires WellFormed(c) && IsRank(c, rank) && i < |c.nodes|
    decreases rank[i]
  {
    if c.nodes[i].Gate? then
      var f := c.nodes[i].fanins;
      Apply(c.nodes[i].func, seq(|f|, k requires 0 <= k < |f| => assert f[k] in f; ValueAt(c, rank, base, f[k])))
    else
      Bit(base, i)
  }

  lemma ValuationExists(c: Ckt, base: Model) returns (v: Model)
    requires WellFormed(c) && Acyclic(c)
    ensures IsVal(c, v)
    ensures forall i :: 0 <= i < |c.nodes| && !c.nodes[i].Gate? ==> Bit(v, i) == Bit(base, i)
  {
    var rank :| IsRank(c, rank);
    v := seq(|c.nodes|, i requires 0 <= i < |c.nodes| => ValueAt(c, rank, base, i));
    forall i | 0 <= i < |c.nodes|
      ensures GateHolds(c, v, i)
    {
      if c.nodes[i].Gate? {
        var f := c.nodes[i].fanins;
        forall k | 0 <= k < |f| ensures f[k] < |c.nodes| { assert f[k] in f; }
        assert Vals(v, f) == seq(|f|, k requires 0 <= k < |f| => assert f[k] in f; ValueAt(c, rank, base, f[k]));
      }
    }
  }

  lemma {:induction false} ValuationAgree(c: Ckt, rank: seq<nat>, v: Model, w: Model, i: nat)
    requires WellFormed(c) && IsRank(c, rank) && i < |c.nodes|
    requires IsVal(c, v) && IsVal(c, w)
    requires forall j :: 0 <= j < |c.nodes| && !c.nodes[j].Gate? ==> Bit(v, j) == Bit(w, j)
    ensures Bit(v, i) == Bit(w, i)
    decreases rank[i]
  {
    if c.nodes[i].Gate? {
      var f := c.nodes[i].fanins;
      forall k | 0 <= k < |f|
        ensures Bit(v, f[k]) == Bit(w, f[k])
      {
        assert f[k] in f;
        ValuationAgree(c, rank, v, w, f[k]);
      }
      assert Vals(v, f) == Vals(w, f);
      assert GateHolds(c, v, i) && GateHolds(c, w, i);
    }
  }

  /** In an acyclic netlist two valuations that agree on key and circuit inputs are equal. */
  lemma ValuationUnique(c: Ckt, v: Model, w: Model)
    requires WellFormed(c) && Acyclic(c)
    requires IsVal(c, v) && IsVal(c, w)
    requires KeyOf(c, v) == KeyOf(c, w) && InOf(c, v) == InOf(c, w)
    ensures v == w
  {
    var rank :| IsRank(c, rank);
    forall j | 0 <= j < |c.nodes| && !c.nodes[j].Gate?
      ensures Bit(v, j) == Bit(w, j)
    {
      if c.nodes[j].KeyIn? {
        var p :| 0 <= p < |c.keyInputs| && c.keyInputs[p] == j;
        assert KeyOf(c, v)[p] == KeyOf(c, w)[p];
      } else {
        var p :| 0 <= p < |c.cktInputs| && c.cktInputs[p] == j;
        assert InOf(c, v)[p] == InOf(c, w)[p];
      }
    }
    forall i | 0 <= i < |c.nodes|
      ensures v[i] == w[i]
    {
      ValuationAgree(c, rank, v, w, i);
      assert v[i] == Bit(v, i) && w[i] == Bit(w, i);
    }
  }

  /** Where input vectors `k` and `x` sit among the node bits. */
  ghost predicate PlacesInputs(c: Ckt, base: Model, k: seq<bool>, x: seq<bool>)
    requires Fits(c, k, x)
  {
    (forall p :: 0 <= p < |k| ==> Bit(base, c.keyInputs[p]) == k[p])
    && (forall p :: 0 <= p < |x| ==> Bit(base, c.cktInputs[p]) == x[p])
  }

  lemma BaseFor(c: Ckt, k: seq<bool>, x: seq<bool>) returns (base: Model)
    requires WellFormed(c) && Fits(c, k, x)
    ensures |base| == |c.nodes| && PlacesInputs(c, base, k, x)
  {
    base := seq(|c.nodes|, i =>
      (exists p :: 0 <= p < |k| && c.keyInputs[p] == i && k[p])
      || (exists p :: 0 <= p < |x| && c.cktInputs[p] == i && x[p]));
    forall p | 0 <= p < |k|
      ensures Bit(base, c.keyInputs[p]) == k[p]
    {
      assert c.keyInputs[p] in c.keyInputs;
      assert c.nodes[c.keyInputs[p]].KeyIn?;
      forall q | 0 <= q < |x| ensures c.cktInputs[q] != c.keyInputs[p] {
        assert c.cktInputs[q] in c.cktInputs;
      }
    }
    forall p | 0 <= p < |x|
      ensures Bit(base, c.cktInputs[p]) == x[p]
    {
      assert c.cktInputs[p] in c.cktInputs;
      assert c.nodes[c.cktInputs[p]].CktIn?;
      forall q | 0 <= q < |k| ensures c.keyInputs[q] != c.cktInputs[p] {
        assert c.keyInputs[q] in c.keyInputs;
      }
    }
  }

  ghost predicate IsEvalOf(c: Ckt, k: seq<bool>, x: seq<bool>, v: Model)
    requires WellFormed(c)
  {
    IsVal(c, v) && KeyOf(c, v) == k && InOf(c, v) == x
  }

  lemma EvalExists(c: Ckt, k: seq<bool>, x: seq<bool>)
    requires WellFormed(c) && Acyclic(c) && Fits(c, k, x)
    ensures exists v :: IsEvalOf(c, k, x, v)
  {
    var base := BaseFor(c, k, x);
    var v := ValuationExists(c, base);
    forall p | 0 <= p < |k| ensures KeyOf(c, v)[p] == k[p] {
      assert c.keyInputs[p] in c.keyInputs;
    }
    forall p | 0 <= p < |x| ensures InOf(c, v)[p] == x[p] {
      assert c.cktInputs[p] in c.cktInputs;
    }
    assert IsEvalOf(c, k, x, v);
  }

  /** All node values of `c` under key `k` and input `x`. */
  ghost function Eval(c: Ckt, k: seq<bool>, x: seq<bool>): (v: Model)
    requires WellFormed(c) && Acyclic(c) && Fits(c, k, x)
    ensures IsEvalOf(c, k, x, v)
  {
    EvalExists(c, k, x);
    var v :| IsEvalOf(c, k, x, v);
    v
  }

  ghost function Outputs(c: Ckt, k: seq<bool>, x: seq<bool>): (y: seq<bool>)
    requires WellFormed(c) && Acyclic(c) && Fits(c, k, x)
    ensures |y| == |c.outputs|
  {
    OutOf(c, Eval(c, k, x))
  }

  /** Whatever valuation one finds, its outputs are the circuit's outputs on its inputs. */
  lemma ValuationIsEval(c: Ckt, v: Model)
    requires WellFormed(c) && Acyclic(c) && IsVal(c, v)
    ensures v == Eval(c, KeyOf(c, v), InOf(c, v))
    ensures OutOf(c, v) == Outputs(c, KeyOf(c, v), InOf(c, v))
  {
    ValuationUnique(c, v, Eval(c, KeyOf(c, v), InOf(c, v)));
  }
}
