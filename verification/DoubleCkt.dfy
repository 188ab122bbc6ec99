/**
 `dblckt_t`: two copies of a netlist that share the circuit inputs, have their
 own keys, and end in comparators whose disjunction says that the copies differ
 on some output.
 */
module DoubleCkt {
  import opened Cnf
  import opened Netlist

  /** `pair_map`: where the A and the B copy of each node are. */
  type PairMap = seq<(nat, nat)>

  function Side(p: (nat, nat), b: bool): nat {
    if b then p.1 else p.0
  }

  function Image(pm: PairMap, ins: seq<nat>, b: bool): (r: seq<nat>)
    requires forall j :: j in ins ==> j < |pm|
    ensures |r| == |ins|
  {
    seq(|ins|, k requires 0 <= k < |ins| => assert ins[k] in ins; Side(pm[ins[k]], b))
  }

  /** Copies sit in order, a shared node in one place and any other node in two. */
  ghost predicate PairsLaid(c: Ckt, pm: PairMap, n: nat, base: nat)
    requires n <= |c.nodes| && n <= |pm|
  {
    && (forall k :: 0 <= k < n ==> pm[k].1 < base)
    && (forall k :: 0 <= k < n ==> pm[k].1 == if c.nodes[k].CktIn? then pm[k].0 else pm[k].0 + 1)
    && (forall k, l :: 0 <= k < l < n ==> pm[k].1 < pm[l].0)
    && (forall p: nat :: p < base ==> Owned(pm, n, p))
  }

  ghost predicate Owned(pm: PairMap, n: nat, p: nat)
    requires n <= |pm|
  {
    exists k :: 0 <= k < n && (pm[k].0 == p || pm[k].1 == p)
  }

  ghost predicate CopyOf(c: Ckt, pm: PairMap, k: nat, b: bool, node: Node)
    requires WellFormed(c) && |pm| == |c.nodes| && k < |c.nodes|
  {
    node == match c.nodes[k]
      case Gate(f, ins, _) => Gate(f, Image(pm, ins, b), false)
      case other => other
  }

  ghost predicate IsDouble(c: Ckt, pm: PairMap, d: Ckt, base: nat)
    requires WellFormed(c)
  {
    && |pm| == |c.nodes| && |d.nodes| == base + 1 + |c.outputs|
    && PairsLaid(c, pm, |c.nodes|, base)
    && (forall k, b :: 0 <= k < |c.nodes| ==> CopyOf(c, pm, k, b, d.nodes[Side(pm[k], b)]))
    && d.nodes[base] == Gate(Or, seq(|c.outputs|, j => base + 1 + j), true)
    && (forall j :: 0 <= j < |c.outputs| ==>
          c.outputs[j] in c.outputs &&
          d.nodes[base + 1 + j] == Gate(Xor, [pm[c.outputs[j]].0, pm[c.outputs[j]].1], true))
    && d.outputs == [base]
  }

  ghost predicate OrderedInputs(c: Ckt) {
    forall i, j :: 0 <= i < j < |c.cktInputs| ==> c.cktInputs[i] < c.cktInputs[j]
  }

  // ----- construction -----

  function Shell(n: Node): Node {
    if n.Gate? then Gate(n.func, [], false) else n
  }

  ghost predicate ListsNodes(ns: seq<Node>, ckt: seq<nat>, key: seq<nat>, gates: seq<nat>) {
    && (forall i: nat :: i in ckt <==> i < |ns| && ns[i].CktIn?)
    && (forall i: nat :: i in key <==> i < |ns| && ns[i].KeyIn?)
    && (forall i: nat :: i in gates <==> i < |ns| && ns[i].Gate?)
    && NoDup(ckt) && NoDup(key) && NoDup(gates)
  }

  lemma ListsNodesSnoc(ns: seq<Node>, ckt: seq<nat>, key: seq<nat>, gates: seq<nat>, n: Node)
    requires ListsNodes(ns, ckt, key, gates)
    ensures ListsNodes(
      ns + [n],
      if n.CktIn? then ckt + [|ns|] else ckt,
      if n.KeyIn? then key + [|ns|] else key,
      if n.Gate? then gates + [|ns|] else gates)
  {
    assert |ns| !in ckt && |ns| !in key && |ns| !in gates;
    NoDupSnoc(ckt, |ns|);
    NoDupSnoc(key, |ns|);
    NoDupSnoc(gates, |ns|);
    hide NoDup;
    var ns' := ns + [n];
    assert forall i :: 0 <= i < |ns| ==> ns'[i] == ns[i];
    assert ns'[|ns|] == n;
  }

  lemma NoDupSnoc(s: seq<nat>, x: nat)
    requires NoDup(s) && x !in s
    ensures NoDup(s + [x])
  {
  }

  /** The circuit inputs listed so far are the images of the first `cnt` circuit inputs of `c`. */
  ghost predicate InputsInOrder(c: Ckt, pm: PairMap, ckt: seq<nat>, n: nat) {
    && |ckt| <= |c.cktInputs| && n <= |pm|
    && (forall j :: 0 <= j < |ckt| ==> c.cktInputs[j] < n && ckt[j] == pm[c.cktInputs[j]].0)
    && (forall j :: |ckt| <= j < |c.cktInputs| ==> c.cktInputs[j] >= n)
  }

  lemma NextInput(c: Ckt, pm: PairMap, ckt: seq<nat>, n: nat)
    requires WellFormed(c) && OrderedInputs(c) && InputsInOrder(c, pm, ckt, n)
    requires n < |c.nodes| && c.nodes[n].CktIn?
    ensures |ckt| < |c.cktInputs| && c.cktInputs[|ckt|] == n
  {
    assert n in c.cktInputs;
    var j :| 0 <= j < |c.cktInputs| && c.cktInputs[j] == n;
    assert j >= |ckt|;
    assert c.cktInputs[|ckt|] >= n;
  }

  /** The state of the layout loop before node `n`. */
  ghost predicate LaidOut(
    c: Ckt, pm: PairMap, nodes: seq<Node>, ckt: seq<nat>, key: seq<nat>, gates: seq<nat>, n: nat)
    requires WellFormed(c) && n <= |c.nodes|
  {
    && |pm| == n && PairsLaid(c, pm, n, |nodes|)
    && (forall k, b :: 0 <= k < n ==> nodes[Side(pm[k], b)] == Shell(c.nodes[k]))
    && ListsNodes(nodes, ckt, key, gates)
    && (OrderedInputs(c) ==> InputsInOrder(c, pm, ckt, n))
  }

  /** Creates the copies without their fanins, in node order. */
  method Layout(c: Ckt)
    returns (pm: PairMap, nodes: seq<Node>, ckt: seq<nat>, key: seq<nat>, gates: seq<nat>)
    requires WellFormed(c)
    ensures LaidOut(c, pm, nodes, ckt, key, gates, |c.nodes|)
  {
    pm, nodes, ckt, key, gates := [], [], [], [], [];
    LayoutStart(c);
    var i := 0;
    hide LaidOut, WellFormed;
    while i != |c.nodes|
      invariant 0 <= i <= |c.nodes|
      invariant LaidOut(c, pm, nodes, ckt, key, gates, i)
    {
      var n := Shell(c.nodes[i]);
      var a: nat := |nodes|;
      var b: nat := a + 1;
      if n.CktIn? {
        LayoutShared(c, pm, nodes, ckt, key, gates, i);
        pm := pm + [(a, a)];
        nodes := nodes + [n];
        ckt := ckt + [a];
      } else {
        LayoutPair(c, pm, nodes, ckt, key, gates, i);
        pm := pm + [(a, b)];
        nodes := nodes + [n] + [n];
        if n.KeyIn? {
          key := key + [a] + [b];
        } else {
          gates := gates + [a] + [b];
        }
      }
      i := i + 1;
    }
  }

  lemma LayoutStart(c: Ckt)
    requires WellFormed(c)
    ensures LaidOut(c, [], [], [], [], [], 0)
  {
  }

  lemma LayoutShared(
    c: Ckt, pm: PairMap, nodes: seq<Node>, ckt: seq<nat>, key: seq<nat>, gates: seq<nat>, i: nat)
    requires WellFormed(c) && i < |c.nodes| && LaidOut(c, pm, nodes, ckt, key, gates, i)
    requires c.nodes[i].CktIn?
    ensures var a: nat := |nodes|;
      LaidOut(c, pm + [(a, a)], nodes + [CktIn], ckt + [a], key, gates, i + 1)
  {
    var a: nat := |nodes|;
    var pm', nodes', ckt' := pm + [(a, a)], nodes + [CktIn], ckt + [a];
    LaidSnoc(c, pm, |nodes|, pm', |nodes'|, i);
    ListsNodesSnoc(nodes, ckt, key, gates, CktIn);
    if OrderedInputs(c) {
      NextInput(c, pm, ckt, i);
      assert ckt'[..|ckt|] == ckt;
      OrderKept(c, pm, pm', ckt', i);
    }
    ShellsKept(c, pm, pm', nodes, nodes', i);
  }

  lemma LayoutPair(
    c: Ckt, pm: PairMap, nodes: seq<Node>, ckt: seq<nat>, key: seq<nat>, gates: seq<nat>, i: nat)
    requires WellFormed(c) && i < |c.nodes| && LaidOut(c, pm, nodes, ckt, key, gates, i)
    requires !c.nodes[i].CktIn?
    ensures var n, a: nat := Shell(c.nodes[i]), |nodes|;
      var b: nat := a + 1;
      LaidOut(c, pm + [(a, b)], nodes + [n] + [n], ckt,
        if n.KeyIn? then key + [a] + [b] else key,
        if n.KeyIn? then gates else gates + [a] + [b], i + 1)
  {
    var n, a: nat := Shell(c.nodes[i]), |nodes|;
    var b: nat := a + 1;
    var pm', nodes' := pm + [(a, b)], nodes + [n] + [n];
    LaidSnoc(c, pm, |nodes|, pm', |nodes'|, i);
    ListsPair(nodes, ckt, key, gates, n, a, b);
    if OrderedInputs(c) {
      OrderKept(c, pm, pm', ckt, i);
    }
    ShellsKept(c, pm, pm', nodes, nodes', i);
  }

  lemma ListsPair(nodes: seq<Node>, ckt: seq<nat>, key: seq<nat>, gates: seq<nat>, n: Node, a: nat, b: nat)
    requires ListsNodes(nodes, ckt, key, gates) && !n.CktIn? && a == |nodes| && b == a + 1
    ensures ListsNodes(nodes + [n] + [n], ckt,
      if n.KeyIn? then key + [a] + [b] else key,
      if n.KeyIn? then gates else gates + [a] + [b])
  {
    ListsNodesSnoc(nodes, ckt, key, gates, n);
    if n.KeyIn? {
      ListsNodesSnoc(nodes + [n], ckt, key + [a], gates, n);
    } else {
      ListsNodesSnoc(nodes + [n], ckt, key, gates + [a], n);
    }
  }

  lemma ShellsKept(c: Ckt, pm: PairMap, pm': PairMap, nodes: seq<Node>, nodes': seq<Node>, i: nat)
    requires |pm| == i < |c.nodes| && |pm'| == i + 1 && pm <= pm' && nodes <= nodes'
    requires PairsLaid(c, pm, i, |nodes|) && PairsLaid(c, pm', i + 1, |nodes'|)
    requires forall k, b :: 0 <= k < i ==> nodes[Side(pm[k], b)] == Shell(c.nodes[k])
    requires forall b :: nodes'[Side(pm'[i], b)] == Shell(c.nodes[i])
    ensures forall k, b :: 0 <= k < i + 1 ==> nodes'[Side(pm'[k], b)] == Shell(c.nodes[k])
  {
    forall k, b | 0 <= k < i + 1
      ensures nodes'[Side(pm'[k], b)] == Shell(c.nodes[k])
    {
      if k < i {
        assert pm'[k] == pm[k];
        assert nodes'[Side(pm[k], b)] == nodes[Side(pm[k], b)];
      }
    }
  }

  lemma LaidSnoc(c: Ckt, pm: PairMap, base: nat, pm': PairMap, base': nat, i: nat)
    requires i < |c.nodes| && |pm| == i && PairsLaid(c, pm, i, base)
    requires pm' == pm + [if c.nodes[i].CktIn? then (base, base) else (base, base + 1)]
    requires base' == pm'[i].1 + 1
    ensures PairsLaid(c, pm', i + 1, base')
  {
    var n := i + 1;
    forall p: nat | p < base'
      ensures Owned(pm', n, p)
    {
      if p < base {
        assert Owned(pm, i, p);
        var k :| 0 <= k < i && (pm[k].0 == p || pm[k].1 == p);
        assert pm'[k] == pm[k];
      } else {
        assert pm'[i].0 == p || pm'[i].1 == p;
      }
    }
  }

  lemma OrderKept(c: Ckt, pm: PairMap, pm': PairMap, ckt: seq<nat>, i: nat)
    requires WellFormed(c) && OrderedInputs(c) && i < |c.nodes|
    requires |pm| == i && |pm'| == i + 1 && pm <= pm'
    requires if c.nodes[i].CktIn?
      then |ckt| > 0 && InputsInOrder(c, pm, ckt[..|ckt| - 1], i) && ckt[|ckt| - 1] == pm'[i].0
           && |ckt| <= |c.cktInputs| && c.cktInputs[|ckt| - 1] == i
      else InputsInOrder(c, pm, ckt, i)
    ensures InputsInOrder(c, pm', ckt, i + 1)
  {
    forall j | |ckt| <= j < |c.cktInputs|
      ensures c.cktInputs[j] >= i + 1
    {
      if c.nodes[i].CktIn? {
        assert c.cktInputs[|ckt| - 1] < c.cktInputs[j];
      } else {
        assert c.cktInputs[j] in c.cktInputs;
      }
    }
    forall j | 0 <= j < |ckt|
      ensures c.cktInputs[j] < i + 1 && ckt[j] == pm'[c.cktInputs[j]].0
    {
      if c.nodes[i].CktIn? && j < |ckt| - 1 {
        assert ckt[..|ckt| - 1][j] == ckt[j];
      }
    }
  }

  /** `_create_inputs`: the fanins of both copies of a gate, in order. */
  method CreateInputs(pm: PairMap, ins: seq<nat>) returns (insA: seq<nat>, insB: seq<nat>)
    requires forall j :: j in ins ==> j < |pm|
    ensures insA == Image(pm, ins, false) && insB == Image(pm, ins, true)
  {
    insA, insB := [], [];
    for i := 0 to |ins|
      invariant |insA| == |insB| == i
      invariant forall k :: 0 <= k < i ==> ins[k] in ins && insA[k] == pm[ins[k]].0 && insB[k] == pm[ins[k]].1
    {
      assert ins[i] in ins;
      insA := insA + [pm[ins[i]].0];
      insB := insB + [pm[ins[i]].1];
    }
  }

  /** A node's copy: wired if its gate has been visited, a shell before. */
  ghost predicate WiredTo(c: Ckt, pm: PairMap, nodes: seq<Node>, done: seq<nat>)
    requires WellFormed(c) && |pm| == |c.nodes|
  {
    forall k, b :: 0 <= k < |c.nodes| && Side(pm[k], b) < |nodes| ==>
      if k in done then CopyOf(c, pm, k, b, nodes[Side(pm[k], b)])
      else nodes[Side(pm[k], b)] == Shell(c.nodes[k])
  }

  method WireGates(c: Ckt, pm: PairMap, shells: seq<Node>) returns (nodes: seq<Node>)
    requires WellFormed(c) && |pm| == |c.nodes| && PairsLaid(c, pm, |c.nodes|, |shells|)
    requires forall k, b :: 0 <= k < |c.nodes| ==> shells[Side(pm[k], b)] == Shell(c.nodes[k])
    ensures |nodes| == |shells|
    ensures forall k, b :: 0 <= k < |c.nodes| ==> CopyOf(c, pm, k, b, nodes[Side(pm[k], b)])
    ensures forall p :: 0 <= p < |nodes| ==> Shell(nodes[p]) == Shell(shells[p])
  {
    nodes := shells;
    var i := 0;
    while i != |c.gates|
      invariant 0 <= i <= |c.gates| && |nodes| == |shells|
      invariant WiredTo(c, pm, nodes, c.gates[..i])
      invariant forall p :: 0 <= p < |nodes| ==> Shell(nodes[p]) == Shell(shells[p])
    {
      var g := c.gates[i];
      assert g in c.gates && g !in c.gates[..i];
      assert c.gates[..i + 1] == c.gates[..i] + [g];
      var insA, insB := CreateInputs(pm, c.nodes[g].fanins);
      var f := c.nodes[g].func;
      ghost var before := nodes;
      nodes := nodes[pm[g].0 := Gate(f, insA, false)][pm[g].1 := Gate(f, insB, false)];
      forall k, b | 0 <= k < |c.nodes|
        ensures if k in c.gates[..i + 1] then CopyOf(c, pm, k, b, nodes[Side(pm[k], b)])
                else nodes[Side(pm[k], b)] == Shell(c.nodes[k])
      {
        if k != g {
          assert Side(pm[k], b) != pm[g].0 && Side(pm[k], b) != pm[g].1;
          assert nodes[Side(pm[k], b)] == before[Side(pm[k], b)];
        }
      }
      assert before[Side(pm[g], false)] == Shell(c.nodes[g]);
      assert before[Side(pm[g], true)] == Shell(c.nodes[g]);
      i := i + 1;
    }
    assert c.gates[..i] == c.gates;
    forall k, b | 0 <= k < |c.nodes|
      ensures CopyOf(c, pm, k, b, nodes[Side(pm[k], b)])
    {
      assert c.nodes[k].Gate? ==> k in c.gates;
    }
  }

  /** The whole constructor, with comparators. */
  method BuildDouble(c: Ckt) returns (pm: PairMap, d: Ckt, ghost base: nat)
    requires WellFormed(c) && |c.outputs| >= 1
    ensures IsDouble(c, pm, d, base) && WellFormed(d)
    ensures OrderedInputs(c) ==>
      |d.cktInputs| == |c.cktInputs| &&
      forall j :: 0 <= j < |c.cktInputs| ==> c.cktInputs[j] < |pm| && d.cktInputs[j] == pm[c.cktInputs[j]].0
  {
    var shells, ckt, key, gates;
    pm, shells, ckt, key, gates := Layout(c);
    var copies := WireGates(c, pm, shells);
    base := |copies|;
    ListsNodesShape(shells, copies, ckt, key, gates);
    var nodes;
    nodes, gates := AddComparators(c, pm, copies, ckt, key, gates);
    d := Ckt(nodes, ckt, key, gates, [|copies|]);
    forall k, b | 0 <= k < |c.nodes|
      ensures CopyOf(c, pm, k, b, d.nodes[Side(pm[k], b)])
    {
      assert CopyOf(c, pm, k, b, copies[Side(pm[k], b)]);
      assert nodes[Side(pm[k], b)] == copies[Side(pm[k], b)];
    }
    DoubleShape(c, pm, d, base);
    if OrderedInputs(c) {
      InputsComplete(c, pm, ckt);
    }
  }

  lemma InputsComplete(c: Ckt, pm: PairMap, ckt: seq<nat>)
    requires WellFormed(c) && InputsInOrder(c, pm, ckt, |c.nodes|)
    ensures |ckt| == |c.cktInputs|
  {
    if |ckt| < |c.cktInputs| {
      InputInRange(c, |ckt|);
    }
  }

  lemma InputInRange(c: Ckt, j: nat)
    requires WellFormed(c) && j < |c.cktInputs|
    ensures c.cktInputs[j] < |c.nodes|
  {
    assert c.cktInputs[j] in c.cktInputs;
  }

  /** The final or gate and one xor per output, each marked as newly added. */
  method AddComparators(
    c: Ckt, pm: PairMap, copies: seq<Node>, ghost ckt: seq<nat>, ghost key: seq<nat>, gates: seq<nat>)
    returns (nodes: seq<Node>, gates': seq<nat>)
    requires WellFormed(c) && |pm| == |c.nodes| && ListsNodes(copies, ckt, key, gates)
    ensures ComparedTo(c, pm, copies, nodes, |c.outputs|)
    ensures ListsNodes(nodes, ckt, key, gates')
  {
    var finalOr: nat := |copies|;
    ListsNodesSnoc(copies, ckt, key, gates, Gate(Or, [], true));
    nodes := copies + [Gate(Or, [], true)];
    gates' := gates + [finalOr];
    var i := 0;
    while i != |c.outputs|
      invariant 0 <= i <= |c.outputs|
      invariant ComparedTo(c, pm, copies, nodes, i)
      invariant ListsNodes(nodes, ckt, key, gates')
    {
      assert c.outputs[i] in c.outputs;
      var cmp := Gate(Xor, [pm[c.outputs[i]].0, pm[c.outputs[i]].1], true);
      var g: nat := |nodes|;
      ComparedStep(c, pm, copies, nodes, i, ckt, key, gates');
      nodes := (nodes + [cmp])[finalOr := Gate(Or, nodes[finalOr].fanins + [g], true)];
      gates' := gates' + [g];
      i := i + 1;
    }
  }

  /** The or gate and the comparators of the first `n` outputs follow the copies. */
  ghost predicate ComparedTo(c: Ckt, pm: PairMap, copies: seq<Node>, nodes: seq<Node>, n: nat)
    requires WellFormed(c) && |pm| == |c.nodes| && n <= |c.outputs|
  {
    && |nodes| == |copies| + 1 + n && copies <= nodes
    && nodes[|copies|] == Gate(Or, seq(n, j => |copies| + 1 + j), true)
    && (forall j :: 0 <= j < n ==>
          c.outputs[j] in c.outputs &&
          nodes[|copies| + 1 + j] == Gate(Xor, [pm[c.outputs[j]].0, pm[c.outputs[j]].1], true))
  }

  lemma ComparedStep(
    c: Ckt, pm: PairMap, copies: seq<Node>, nodes: seq<Node>, i: nat, ckt: seq<nat>, key: seq<nat>, gates: seq<nat>)
    requires WellFormed(c) && |pm| == |c.nodes| && i < |c.outputs| && c.outputs[i] in c.outputs
    requires ComparedTo(c, pm, copies, nodes, i) && ListsNodes(nodes, ckt, key, gates)
    ensures var cmp := Gate(Xor, [pm[c.outputs[i]].0, pm[c.outputs[i]].1], true);
      var nodes' := (nodes + [cmp])[|copies| := Gate(Or, nodes[|copies|].fanins + [|nodes|], true)];
      ComparedTo(c, pm, copies, nodes', i + 1) && ListsNodes(nodes', ckt, key, gates + [|nodes|])
  {
    var cmp := Gate(Xor, [pm[c.outputs[i]].0, pm[c.outputs[i]].1], true);
    var g: nat := |nodes|;
    var nodes' := (nodes + [cmp])[|copies| := Gate(Or, nodes[|copies|].fanins + [g], true)];
    assert seq(i + 1, j => |copies| + 1 + j) == seq(i, j => |copies| + 1 + j) + [g];
    ListsNodesSnoc(nodes, ckt, key, gates, cmp);
    assert copies <= nodes';
    forall p | 0 <= p < |nodes'|
      ensures Shell(nodes'[p]) == Shell((nodes + [cmp])[p])
    {
      assert p != |copies| ==> nodes'[p] == (nodes + [cmp])[p];
    }
    ListsNodesShape(nodes + [cmp], nodes', ckt, key, gates + [g]);
  }

  lemma ListsNodesShape(ns: seq<Node>, ns': seq<Node>, ckt: seq<nat>, key: seq<nat>, gates: seq<nat>)
    requires ListsNodes(ns, ckt, key, gates) && |ns'| == |ns|
    requires forall p :: 0 <= p < |ns| ==> Shell(ns'[p]) == Shell(ns[p]) || (ns'[p].Gate? && ns[p].Gate?)
    ensures ListsNodes(ns', ckt, key, gates)
  {
    forall p | 0 <= p < |ns|
      ensures ns'[p].Gate? == ns[p].Gate? && ns'[p].CktIn? == ns[p].CktIn? && ns'[p].KeyIn? == ns[p].KeyIn?
    {
      assert Shell(ns[p]).Gate? == ns[p].Gate?;
      assert Shell(ns'[p]).Gate? == ns'[p].Gate?;
    }
  }

  lemma OwnerSide(c: Ckt, pm: PairMap, d: Ckt, base: nat, p: nat) returns (k: nat, b: bool)
    requires WellFormed(c) && IsDouble(c, pm, d, base) && p < base
    ensures k < |c.nodes| == |pm| && Side(pm[k], b) == p
  {
    assert Owned(pm, |c.nodes|, p);
    k :| 0 <= k < |c.nodes| && (pm[k].0 == p || pm[k].1 == p);
    b := pm[k].1 == p;
  }

  lemma CopyShape(c: Ckt, pm: PairMap, k: nat, b: bool, node: Node, size: nat)
    requires WellFormed(c) && |pm| == |c.nodes| && k < |c.nodes| && CopyOf(c, pm, k, b, node)
    requires forall l :: 0 <= l < |pm| ==> pm[l].0 < size && pm[l].1 < size
    ensures GateShape(node, size)
  {
    assert GateShape(c.nodes[k], |c.nodes|);
    if c.nodes[k].Gate? {
      var ins := c.nodes[k].fanins;
      forall q | q in Image(pm, ins, b)
        ensures q < size
      {
        var t :| 0 <= t < |ins| && Image(pm, ins, b)[t] == q;
        assert ins[t] in ins;
      }
    }
  }

  lemma DoubleShape(c: Ckt, pm: PairMap, d: Ckt, base: nat)
    requires WellFormed(c) && IsDouble(c, pm, d, base) && |c.outputs| >= 1
    ensures forall p :: 0 <= p < |d.nodes| ==> GateShape(d.nodes[p], |d.nodes|)
  {
    hide WellFormed, CopyOf, Owned;
    forall l | 0 <= l < |pm|
      ensures pm[l].0 < base && pm[l].1 < base
    {
    }
    forall p | 0 <= p < |d.nodes|
      ensures GateShape(d.nodes[p], |d.nodes|)
    {
      if p < base {
        var k, b := OwnerSide(c, pm, d, base, p);
        CopyShape(c, pm, k, b, d.nodes[p], |d.nodes|);
      } else if p > base {
        var j: nat := p - base - 1;
        OutputsInRange(c, j);
        assert d.nodes[base + 1 + j] == Gate(Xor, [pm[c.outputs[j]].0, pm[c.outputs[j]].1], true);
      }
    }
  }

  /** The double of a circuit that can be compiled can be compiled. */
  lemma DoubleCompilable(c: Ckt, pm: PairMap, d: Ckt, base: nat)
    requires WellFormed(c) && IsDouble(c, pm, d, base) && |c.outputs| >= 1 && Compilable(c)
    ensures Compilable(d)
  {
    hide WellFormed, Owned;
    forall p | 0 <= p < |d.nodes| && d.nodes[p].Gate?
      ensures Providable(d.nodes[p].func, |d.nodes[p].fanins|)
    {
      if p < base {
        var k, b := OwnerSide(c, pm, d, base, p);
        assert CopyOf(c, pm, k, b, d.nodes[p]);
      } else if p > base {
        var j: nat := p - base - 1;
        OutputsInRange(c, j);
        assert d.nodes[base + 1 + j] == Gate(Xor, [pm[c.outputs[j]].0, pm[c.outputs[j]].1], true);
      }
    }
  }

  lemma OutputsInRange(c: Ckt, j: nat)
    requires WellFormed(c) && j < |c.outputs|
    ensures c.outputs[j] < |c.nodes|
  {
    assert c.outputs[j] in c.outputs;
  }

  // ----- meaning -----

  /** The valuation of `c` that one copy carries in a valuation of the double. */
  function Part(pm: PairMap, v: Model, b: bool): (r: Model)
    ensures |r| == |pm|
  {
    seq(|pm|, k requires 0 <= k < |pm| => Bit(v, Side(pm[k], b)))
  }

  lemma PartGate(c: Ckt, pm: PairMap, d: Ckt, base: nat, v: Model, k: nat, b: bool)
    requires WellFormed(c) && WellFormed(d) && IsDouble(c, pm, d, base) && k < |c.nodes|
    ensures GateHolds(d, v, Side(pm[k], b)) <==> GateHolds(c, Part(pm, v, b), k)
  {
    assert CopyOf(c, pm, k, b, d.nodes[Side(pm[k], b)]);
    if c.nodes[k].Gate? {
      var ins := c.nodes[k].fanins;
      forall t | 0 <= t < |ins|
        ensures Bit(v, Image(pm, ins, b)[t]) == Bit(Part(pm, v, b), ins[t])
      {
        assert ins[t] in ins;
      }
      assert Vals(v, Image(pm, ins, b)) == Vals(Part(pm, v, b), ins);
    }
  }

  /** The comparators: each xor compares one output, the or gate collects them. */
  ghost predicate Compares(c: Ckt, pm: PairMap, base: nat, v: Model)
    requires WellFormed(c) && |pm| == |c.nodes|
  {
    && (forall j :: 0 <= j < |c.outputs| ==>
          Bit(v, base + 1 + j) == (OutOf(c, Part(pm, v, false))[j] != OutOf(c, Part(pm, v, true))[j]))
    && Bit(v, base) == (OutOf(c, Part(pm, v, false)) != OutOf(c, Part(pm, v, true)))
  }

  lemma ComparatorHolds(c: Ckt, pm: PairMap, d: Ckt, base: nat, v: Model, j: nat)
    requires WellFormed(c) && WellFormed(d) && IsDouble(c, pm, d, base) && j < |c.outputs|
    ensures GateHolds(d, v, base + 1 + j) <==>
      Bit(v, base + 1 + j) == (OutOf(c, Part(pm, v, false))[j] != OutOf(c, Part(pm, v, true))[j])
  {
    var o := c.outputs[j];
    assert o in c.outputs;
    assert Vals(v, [pm[o].0, pm[o].1]) == [Bit(v, pm[o].0), Bit(v, pm[o].1)];
  }

  lemma FinalOrHolds(c: Ckt, pm: PairMap, d: Ckt, base: nat, v: Model)
    requires WellFormed(c) && WellFormed(d) && IsDouble(c, pm, d, base)
    requires forall j :: 0 <= j < |c.outputs| ==>
      Bit(v, base + 1 + j) == (OutOf(c, Part(pm, v, false))[j] != OutOf(c, Part(pm, v, true))[j])
    ensures GateHolds(d, v, base) <==>
      Bit(v, base) == (OutOf(c, Part(pm, v, false)) != OutOf(c, Part(pm, v, true)))
  {
    var a, b := OutOf(c, Part(pm, v, false)), OutOf(c, Part(pm, v, true));
    var xs := Vals(v, seq(|c.outputs|, j => base + 1 + j));
    assert forall j :: 0 <= j < |c.outputs| ==> xs[j] == (a[j] != b[j]);
    if a != b {
      var j :| 0 <= j < |a| && a[j] != b[j];
      assert xs[j];
    }
  }

  /**
   A valuation of the doubled netlist is a pair of valuations of the original
   one, and its output says whether their outputs differ.
   */
  lemma DoubleMeaning(c: Ckt, pm: PairMap, d: Ckt, base: nat, v: Model)
    requires WellFormed(c) && WellFormed(d) && IsDouble(c, pm, d, base) && |v| == |d.nodes|
    ensures IsVal(d, v) <==>
      IsVal(c, Part(pm, v, false)) && IsVal(c, Part(pm, v, true)) && Compares(c, pm, base, v)
  {
    forall k, b | 0 <= k < |c.nodes|
      ensures GateHolds(d, v, Side(pm[k], b)) <==> GateHolds(c, Part(pm, v, b), k)
    {
      PartGate(c, pm, d, base, v, k, b);
    }
    forall j | 0 <= j < |c.outputs|
      ensures GateHolds(d, v, base + 1 + j) <==>
        Bit(v, base + 1 + j) == (OutOf(c, Part(pm, v, false))[j] != OutOf(c, Part(pm, v, true))[j])
    {
      ComparatorHolds(c, pm, d, base, v, j);
    }
    if IsVal(d, v) {
      forall b, k | 0 <= k < |c.nodes| ensures GateHolds(c, Part(pm, v, b), k) {
        assert GateHolds(d, v, Side(pm[k], b));
      }
      FinalOrHolds(c, pm, d, base, v);
    }
    if IsVal(c, Part(pm, v, false)) && IsVal(c, Part(pm, v, true)) && Compares(c, pm, base, v) {
      FinalOrHolds(c, pm, d, base, v);
      forall p | 0 <= p < |d.nodes|
        ensures GateHolds(d, v, p)
      {
        DoubleGateHolds(c, pm, d, base, v, p);
      }
    }
  }

  lemma DoubleGateHolds(c: Ckt, pm: PairMap, d: Ckt, base: nat, v: Model, p: nat)
    requires WellFormed(c) && WellFormed(d) && IsDouble(c, pm, d, base) && |v| == |d.nodes| && p < |d.nodes|
    requires IsVal(c, Part(pm, v, false)) && IsVal(c, Part(pm, v, true)) && Compares(c, pm, base, v)
    ensures GateHolds(d, v, p)
  {
    if p < base {
      assert Owned(pm, |c.nodes|, p);
      var k :| 0 <= k < |c.nodes| && (pm[k].0 == p || pm[k].1 == p);
      var b := pm[k].1 == p;
      assert Side(pm[k], b) == p;
      PartGate(c, pm, d, base, v, k, b);
    } else if p == base {
      FinalOrHolds(c, pm, d, base, v);
    } else {
      ComparatorHolds(c, pm, d, base, v, p - base - 1);
    }
  }

  function Differences(oa: seq<bool>, ob: seq<bool>): (r: seq<bool>)
    requires |oa| == |ob|
    ensures |r| == |oa| && forall j :: 0 <= j < |oa| ==> r[j] == (oa[j] != ob[j])
  {
    seq(|oa|, j requires 0 <= j < |oa| => oa[j] != ob[j])
  }

  ghost function Copies(c: Ckt, pm: PairMap, base: nat, a: Model, b: Model): (r: seq<bool>)
    requires |pm| == |c.nodes| == |a| == |b| && PairsLaid(c, pm, |c.nodes|, base)
    ensures |r| == base
  {
    seq(base, p requires 0 <= p < base =>
      var k := OwnerOf(c, pm, base, p);
      if pm[k].0 == p then a[k] else b[k])
  }

  /** Node bits of the double put together from two valuations of `c`. */
  ghost function Combined(c: Ckt, pm: PairMap, base: nat, a: Model, b: Model): (v: Model)
    requires |pm| == |c.nodes| == |a| == |b| && PairsLaid(c, pm, |c.nodes|, base)
  {
    Copies(c, pm, base, a, b) + [OutOf(c, a) != OutOf(c, b)] + Differences(OutOf(c, a), OutOf(c, b))
  }

  lemma CombinedParts(c: Ckt, pm: PairMap, base: nat, a: Model, b: Model)
    requires |pm| == |c.nodes| == |a| == |b| && PairsLaid(c, pm, |c.nodes|, base)
    requires forall k :: 0 <= k < |c.nodes| && c.nodes[k].CktIn? ==> a[k] == b[k]
    ensures Part(pm, Combined(c, pm, base, a, b), false) == a
    ensures Part(pm, Combined(c, pm, base, a, b), true) == b
  {
    var v := Combined(c, pm, base, a, b);
    forall k | 0 <= k < |c.nodes|
      ensures Bit(v, pm[k].0) == a[k] && Bit(v, pm[k].1) == b[k]
    {
      OnlyOwner(c, pm, base, k);
      assert OwnerOf(c, pm, base, pm[k].0) == k && OwnerOf(c, pm, base, pm[k].1) == k;
      assert forall p :: 0 <= p < base ==> v[p] == Copies(c, pm, base, a, b)[p];
    }
    assert Part(pm, v, false) == a;
    assert Part(pm, v, true) == b;
  }

  lemma CombinedCompares(c: Ckt, pm: PairMap, base: nat, a: Model, b: Model)
    requires WellFormed(c) && |pm| == |c.nodes| == |a| == |b| && PairsLaid(c, pm, |c.nodes|, base)
    requires Part(pm, Combined(c, pm, base, a, b), false) == a
    requires Part(pm, Combined(c, pm, base, a, b), true) == b
    ensures Compares(c, pm, base, Combined(c, pm, base, a, b))
    ensures |Combined(c, pm, base, a, b)| == base + 1 + |c.outputs|
  {
    hide Part, Copies, OutOf, PairsLaid;
    var v := Combined(c, pm, base, a, b);
    var oa, ob := OutOf(c, a), OutOf(c, b);
    assert v[base] == (oa != ob);
    forall j | 0 <= j < |c.outputs|
      ensures Bit(v, base + 1 + j) == (oa[j] != ob[j])
    {
      assert v[base + 1 + j] == Differences(oa, ob)[j];
    }
  }

  /** Any two valuations that agree on the circuit inputs are the parts of one of the double. */
  lemma DoubleCombine(c: Ckt, pm: PairMap, d: Ckt, base: nat, a: Model, b: Model) returns (v: Model)
    requires WellFormed(c) && WellFormed(d) && IsDouble(c, pm, d, base)
    requires IsVal(c, a) && IsVal(c, b) && InOf(c, a) == InOf(c, b)
    ensures IsVal(d, v) && Part(pm, v, false) == a && Part(pm, v, true) == b
    ensures Bit(v, base) <==> OutOf(c, a) != OutOf(c, b)
  {
    forall k | 0 <= k < |c.nodes|
      ensures c.nodes[k].CktIn? ==> a[k] == b[k]
    {
      SharedAgree(c, a, b, k);
    }
    v := Combined(c, pm, base, a, b);
    CombinedParts(c, pm, base, a, b);
    CombinedCompares(c, pm, base, a, b);
    DoubleMeaning(c, pm, d, base, v);
  }

  lemma SharedAgree(c: Ckt, a: Model, b: Model, k: nat)
    requires WellFormed(c) && IsVal(c, a) && IsVal(c, b) && InOf(c, a) == InOf(c, b) && k < |c.nodes|
    ensures c.nodes[k].CktIn? ==> a[k] == b[k]
  {
    if c.nodes[k].CktIn? {
      assert k in c.cktInputs;
      var j :| 0 <= j < |c.cktInputs| && c.cktInputs[j] == k;
      assert InOf(c, a)[j] == InOf(c, b)[j];
    }
  }

  lemma OnlyOwner(c: Ckt, pm: PairMap, base: nat, k: nat)
    requires |pm| == |c.nodes| && PairsLaid(c, pm, |c.nodes|, base) && k < |c.nodes|
    ensures forall l :: 0 <= l < |c.nodes| && l != k ==>
      pm[l].0 != pm[k].0 && pm[l].0 != pm[k].1 && pm[l].1 != pm[k].0 && pm[l].1 != pm[k].1
  {
    forall l | 0 <= l < |c.nodes| && l != k
      ensures pm[l].0 != pm[k].0 && pm[l].0 != pm[k].1 && pm[l].1 != pm[k].0 && pm[l].1 != pm[k].1
    {
      if l < k {
        assert pm[l].1 < pm[k].0;
      } else {
        assert pm[k].1 < pm[l].0;
      }
    }
  }

  /** What a copied gate reads is the copy of something its original reads. */
  lemma CopiedFanin(c: Ckt, pm: PairMap, d: Ckt, base: nat, p: nat, q: nat) returns (a: nat)
    requires WellFormed(c) && IsDouble(c, pm, d, base) && p < base
    requires d.nodes[p].Gate? && q in d.nodes[p].fanins
    ensures |pm| == |c.nodes| && PairsLaid(c, pm, |c.nodes|, base) && q < base && a == OwnerOf(c, pm, base, q)
    ensures var k := OwnerOf(c, pm, base, p); c.nodes[k].Gate? && a in c.nodes[k].fanins
  {
    var k := OwnerOf(c, pm, base, p);
    var b := pm[k].1 == p;
    assert Side(pm[k], b) == p && CopyOf(c, pm, k, b, d.nodes[p]);
    assert GateShape(c.nodes[k], |c.nodes|);
    hide WellFormed;
    var ins := c.nodes[k].fanins;
    var t :| 0 <= t < |ins| && Image(pm, ins, b)[t] == q;
    a := ins[t];
    assert a in ins;
    OnlyOwner(c, pm, base, a);
  }

  /** Doubling keeps the netlist acyclic. */
  lemma DoubleAcyclic(c: Ckt, pm: PairMap, d: Ckt, base: nat)
    requires WellFormed(c) && WellFormed(d) && IsDouble(c, pm, d, base) && Acyclic(c)
    ensures Acyclic(d)
  {
    var rank :| IsRank(c, rank);
    var top := Bound(rank);
    var owner := seq(base, p requires 0 <= p < base => OwnerOf(c, pm, base, p));
    var rank' := seq(|d.nodes|, p requires 0 <= p < |d.nodes| =>
      if p < base then rank[owner[p]] else if p == base then top + 1 else top);
    forall p, q | 0 <= p < |d.nodes| && d.nodes[p].Gate? && q in d.nodes[p].fanins && q < |rank'|
      ensures rank'[q] < rank'[p]
    {
      if p < base {
        var a := CopiedFanin(c, pm, d, base, p, q);
        assert owner[q] == a;
      } else if p > base {
        assert c.outputs[p - base - 1] in c.outputs;
      }
    }
    assert IsRank(d, rank');
  }

  ghost function OwnerOf(c: Ckt, pm: PairMap, base: nat, p: nat): (k: nat)
    requires |pm| == |c.nodes| && PairsLaid(c, pm, |c.nodes|, base) && p < base
    ensures k < |c.nodes| && (pm[k].0 == p || pm[k].1 == p)
  {
    assert Owned(pm, |c.nodes|, p);
    var k :| 0 <= k < |c.nodes| && (pm[k].0 == p || pm[k].1 == p);
    k
  }

  ghost function Bound(s: seq<nat>): (b: nat)
    ensures forall i :: 0 <= i < |s| ==> s[i] < b
  {
    if s == [] then 0
    else
      var r := Bound(s[..|s| - 1]);
      if s[|s| - 1] < r then r else s[|s| - 1] + 1
  }
}
