/**
 Inserting a gate behind a node: the node's fanouts read the new gate instead, the
 node may be inverted to make up for it, and an output moves to the new gate.
 Whenever the new gate restores the node's old value, nothing else changes.
 */
module Splice {
  import opened Cnf
  import opened Netlist
  import opened ConstProp
  import BP = BufferPass

  /** A circuit with its lists, all by node number. */
  datatype State = State(
    nodes: seq<Node>, fanouts: seq<seq<nat>>, isOut: seq<bool>,
    list: seq<nat>, inputs: seq<nat>, keyInputs: seq<nat>, gates: seq<nat>, outputs: seq<nat>)

  ghost predicate GateFits(ns: seq<Node>, w: Model, g: nat) {
    IsGate(ns, g) && ArityOk(ns[g].func, |ns[g].fanins|) && Bit(w, g) == Apply(ns[g].func, Vals(w, ns[g].fanins))
  }

  ghost predicate AllFit(ns: seq<Node>, w: Model) {
    |w| == |ns| && forall g: nat :: IsGate(ns, g) ==> GateFits(ns, w, g)
  }

  ghost predicate Valid(s: State) {
    && |s.fanouts| == |s.isOut| == |s.nodes|
    && (forall g: nat :: IsGate(s.nodes, g) ==> ArityOk(s.nodes[g].func, |s.nodes[g].fanins|))
    && (forall a: nat :: a < |s.nodes| ==> MirrorAt(s.nodes, s.fanouts, a))
    && (forall g: nat :: g in s.gates <==> IsGate(s.nodes, g))
    && (forall k :: k in s.keyInputs ==> k < |s.nodes| && s.nodes[k].KeyIn?)
    && (forall a: nat :: a in s.list <==> a < |s.nodes|)
    && (forall o :: o in s.outputs ==> o < |s.nodes| && s.isOut[o])
    && NoDup(s.outputs) && Orderable(s.nodes)
  }

  /** `invert`: the table of complementary functions. */
  function Invert(f: Func): Func {
    match f
    case And => Nand
    case Nand => And
    case Or => Nor
    case Nor => Or
    case Xor => Xnor
    case Xnor => Xor
    case Not => Buf
    case Buf => Not
    case Mux => Mux
  }

  function Inverted(ns: seq<Node>, n: nat, inv: bool): (r: seq<Node>)
    requires n < |ns|
    ensures |r| == |ns|
  {
    if inv && ns[n].Gate? then ns[n := ns[n].(func := Invert(ns[n].func))] else ns
  }

  /** The nodes after a splice at `n` with new nodes `cells`, of which `e` takes over the fanouts. */
  function Spliced(ns: seq<Node>, fs: seq<nat>, n: nat, inv: bool, e: nat, cells: seq<Node>): (r: seq<Node>)
    requires n < |ns|
    ensures |r| == |ns| + |cells|
  {
    BP.Rewired(Inverted(ns, n, inv), fs, n, e) + cells
  }

  lemma InvertValue(f: Func, xs: seq<bool>)
    requires f != Mux && ArityOk(f, |xs|)
    ensures Invert(Invert(f)) == f && ArityOk(Invert(f), |xs|) && Apply(Invert(f), xs) == !Apply(f, xs)
  {
  }

  // ----- values -----

  /** The values of `w` with `n` changed, seen through fanins that read `e` where they read `n`. */
  lemma ReplacedVals(ins: seq<nat>, n: nat, e: nat, w: Model, w': Model, size: nat)
    requires n < size <= |w'| && |w| == size && forall a :: a in ins ==> a < size
    requires forall a :: 0 <= a < size && a != n ==> w'[a] == w[a]
    requires Bit(w', e) == w[n]
    ensures Vals(w', BP.Replace(ins, n, e)) == Vals(w, ins)
  {
    forall k | 0 <= k < |ins|
      ensures Vals(w', BP.Replace(ins, n, e))[k] == Vals(w, ins)[k]
    {
      assert ins[k] in ins;
    }
  }

  lemma OtherVals(ins: seq<nat>, n: nat, w: Model, w': Model, size: nat)
    requires n < size <= |w'| && |w| == size && forall a :: a in ins ==> a < size
    requires forall a :: 0 <= a < size && a != n ==> w'[a] == w[a]
    requires n !in ins
    ensures Vals(w', ins) == Vals(w, ins)
  {
    forall k | 0 <= k < |ins|
      ensures Vals(w', ins)[k] == Vals(w, ins)[k]
    {
      assert ins[k] in ins;
    }
  }

  /** `w'` extends `w` but for node `n`, which is inverted if `inv`; node `e` has the old value of `n`. */
  ghost predicate Restores(ns: seq<Node>, w: Model, w': Model, n: nat, inv: bool, e: nat) {
    && n < |ns| == |w| <= |w'|
    && (forall a :: 0 <= a < |ns| && a != n ==> w'[a] == w[a])
    && w'[n] == (w[n] != inv) && Bit(w', e) == w[n]
  }

  ghost predicate Spliceable(ns: seq<Node>, fs: seq<nat>, n: nat, inv: bool) {
    && n < |ns| && (forall g: nat :: g in fs <==> Feeds(ns, n, g)) && n !in fs
    && (forall a: nat, g: nat :: Feeds(ns, a, g) ==> a < |ns|)
    && (inv ==> IsGate(ns, n) && ns[n].func != Mux)
  }

  /** Every old gate holds after the splice exactly if it held before. */
  lemma SpliceGate(
      ns: seq<Node>, fs: seq<nat>, n: nat, inv: bool, e: nat, cells: seq<Node>, w: Model, w': Model, g: nat)
    requires Spliceable(ns, fs, n, inv) && Restores(ns, w, w', n, inv, e) && IsGate(ns, g)
    ensures GateFits(Spliced(ns, fs, n, inv, e, cells), w', g) <==> GateFits(ns, w, g)
  {
    var ins := ns[g].fanins;
    forall a | a in ins ensures a < |ns| {
      assert Feeds(ns, a, g);
    }
    var ns' := Spliced(ns, fs, n, inv, e, cells);
    if g in fs {
      ReplacedVals(ins, n, e, w, w', |ns|);
      assert ns'[g] == ns[g].(fanins := BP.Replace(ins, n, e));
    } else {
      assert !Feeds(ns, n, g);
      OtherVals(ins, n, w, w', |ns|);
      if g == n && inv {
        if ArityOk(ns[n].func, |ins|) {
          InvertValue(ns[n].func, Vals(w, ins));
        }
        InvertArity(ns[n].func, |ins|);
      }
    }
  }

  lemma InvertArity(f: Func, n: nat)
    requires f != Mux
    ensures Invert(f) != Mux && (ArityOk(Invert(f), n) <==> ArityOk(f, n))
  {
  }

  // ----- fanouts -----

  /** Fanouts after the splice: `n` feeds only `first`, `e` took over the fanouts of `n`. */
  lemma SplicedFeeds(ns: seq<Node>, fs: seq<nat>, n: nat, inv: bool, e: nat, cells: seq<Node>, a: nat, g: nat)
    requires Spliceable(ns, fs, n, inv) && e >= |ns|
    ensures Feeds(Spliced(ns, fs, n, inv, e, cells), a, g) <==>
      if g < |ns| then (if a == n then false else if a == e then g in fs else Feeds(ns, a, g))
      else g < |ns| + |cells| && cells[g - |ns|].Gate? && a in cells[g - |ns|].fanins
  {
    if IsGate(ns, g) {
      if g in fs {
        BP.ReplaceMembers(ns[g].fanins, n, e);
      }
      if a == e {
        assert !Feeds(ns, a, g);
      }
    }
  }

  // ----- outputs -----

  function IndexOf(list: seq<nat>, x: nat): (i: nat)
    requires x in list
    ensures i < |list| && list[i] == x
  {
    if list[0] == x then 0 else 1 + IndexOf(list[1..], x)
  }

  /** `replace_output`. */
  function ReplaceOutput(outputs: seq<nat>, x: nat, y: nat): seq<nat>
    requires x in outputs
  {
    outputs[IndexOf(outputs, x) := y]
  }

  /** In a list without repetition just that output is replaced. */
  lemma ReplacedOutputs(outputs: seq<nat>, x: nat, y: nat)
    requires NoDup(outputs) && x in outputs
    ensures forall p :: 0 <= p < |outputs| ==>
      ReplaceOutput(outputs, x, y)[p] == if outputs[p] == x then y else outputs[p]
  {
  }
}
