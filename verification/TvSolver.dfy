/**
 `tv_solver_t`: the test-vector attack.  The doubled netlist is split into
 two-input gates and encoded three-valued; keys other than the ones under attack
 are unknown, so an input on which the copies differ for sure pins those keys.
 */
module TvSolver {
  import opened Cnf
  import opened Netlist
  import opened Ternary
  import opened DoubleCkt
  import opened AttackState
  import opened TernaryMiter
  import opened KeySpace
  import SG = SplitGates
  import TC = TernaryClauses
  import SatSolver
  import Simulator

  /** Bit `j` of the value `v` tried for a group of keys. */
  function BitAt(v: nat, j: nat): bool {
    (v / Pow2(j)) % 2 == 1
  }

  // ----- a model of the ternary solver for given node values -----

  function Encode(t: seq<Tern>): (m: Model)
    ensures |m| == 2 * |t| + 1
  {
    if t == [] then [false] else Encode(t[..|t| - 1]) + [t[|t| - 1].x, t[|t| - 1].v]
  }

  lemma {:induction false} EncodeAt(t: seq<Tern>, i: nat)
    requires i < |t|
    ensures Encode(t)[2 * i + 1] == t[i].x && Encode(t)[2 * i + 2] == t[i].v
  {
    if i < |t| - 1 {
      EncodeAt(t[..|t| - 1], i);
    }
  }

  lemma EncodeNodes(t: seq<Tern>, rest: Model)
    ensures TC.TNodes(|t|, Encode(t) + rest) == t
  {
    hide Encode;
    var e := Encode(t);
    forall i | 0 <= i < |t|
      ensures TC.TernAt(e + rest, TC.TVar(i)) == t[i]
    {
      EncodeAt(t, i);
      var a: nat := 2 * i + 1;
      assert (e + rest)[a] == e[a] && (e + rest)[a + 1] == e[a + 1];
    }
  }

  // ----- what isolating a group of keys means -----

  /** Key `p` is pinned to its bit of `v` if it is in the group `ks`, and unknown otherwise. */
  ghost predicate KeyPinned(q: Tern, ks: seq<nat>, v: nat, p: nat) {
    && (forall j :: 0 <= j < |ks| && ks[j] == p ==> q == Tern(false, BitAt(v, j)))
    && (p !in ks ==> q.x)
  }

  ghost predicate KeysPinnedTo(c: Ckt, t: seq<Tern>, ks: seq<nat>, v: nat, n: nat)
    requires WellFormed(c) && |t| == |c.nodes| && n <= |c.keyInputs|
  {
    forall p :: 0 <= p < n ==> KeyPinnedIn(c, t, ks, v, p)
  }

  ghost predicate KeyPinnedIn(c: Ckt, t: seq<Tern>, ks: seq<nat>, v: nat, p: nat)
    requires WellFormed(c) && |t| == |c.nodes| && p < |c.keyInputs|
  {
    assert c.keyInputs[p] in c.keyInputs;
    KeyPinned(t[c.keyInputs[p]], ks, v, p)
  }

  /** Sides pinned to `vi` and `vj` on the group, all else about the keys unknown, surely differ. */
  ghost predicate Isolates(c: Ckt, ks: seq<nat>, vi: nat, vj: nat, ta: seq<Tern>, tb: seq<Tern>)
    requires WellFormed(c)
  {
    && IsTVal(c.nodes, ta) && IsTVal(c.nodes, tb) && SharesInputs(c, ta, tb)
    && KeysPinnedTo(c, ta, ks, vi, |c.keyInputs|) && KeysPinnedTo(c, tb, ks, vj, |c.keyInputs|)
    && SurelyDiffer(c, ta, tb)
  }

  ghost predicate Isolatable(c: Ckt, ks: seq<nat>, vi: nat, vj: nat)
    requires WellFormed(c)
  {
    exists ta, tb :: Isolates(c, ks, vi, vj, ta, tb)
  }

  /** Key vector `k` has the value `v` on the group. */
  ghost predicate HasValue(k: seq<bool>, ks: seq<nat>, v: nat) {
    forall j :: 0 <= j < |ks| && ks[j] < |k| ==> k[ks[j]] == BitAt(v, j)
  }

  lemma PinnedAgrees(c: Ckt, t: seq<Tern>, ks: seq<nat>, v: nat, k: seq<bool>)
    requires WellFormed(c) && |t| == |c.nodes| && |k| == |c.keyInputs|
    requires KeysPinnedTo(c, t, ks, v, |k|) && HasValue(k, ks, v)
    ensures PinsAgree(c, t, k)
  {
    forall p | 0 <= p < |k|
      ensures c.keyInputs[p] in c.keyInputs
      ensures !t[c.keyInputs[p]].x ==> t[c.keyInputs[p]].v == k[p]
    {
      assert c.keyInputs[p] in c.keyInputs;
      assert KeyPinnedIn(c, t, ks, v, p);
      if p in ks {
        var j :| 0 <= j < |ks| && ks[j] == p;
      }
    }
  }

  /** A correct key with the value of one side makes that side match the oracle's answer. */
  lemma CorrectSideMatches(c: Ckt, s: Ckt, t: seq<Tern>, ks: seq<nat>, v: nat, k: seq<bool>, y: seq<bool>)
    requires GoodCkt(c) && GoodCkt(s) && |s.cktInputs| == |c.cktInputs| && |s.outputs| == |c.outputs|
    requires IsTVal(c.nodes, t) && KeysPinnedTo(c, t, ks, v, |c.keyInputs|)
    requires CorrectKey(c, s, k) && HasValue(k, ks, v) && y == Simulator.Oracle(s, InOf(c, Shadows(t)))
    ensures SideMatches(c, t, y)
  {
    PinnedAgrees(c, t, ks, v, k);
    PinnedSideMatches(c, t, k);
  }

  /** A value of a key group that no correct key has. */
  ghost predicate Excluded(c: Ckt, s: Ckt, ks: seq<nat>, v: nat)
    requires GoodCkt(c) && GoodCkt(s) && |s.cktInputs| == |c.cktInputs|
  {
    forall k :: CorrectKey(c, s, k) ==> !HasValue(k, ks, v)
  }

  /** The known outputs of the valuation `t` do not contradict the oracle's answer on its input. */
  ghost predicate OracleAgrees(c: Ckt, s: Ckt, t: seq<Tern>)
    requires Interfaces(c, s) && |t| == |c.nodes|
  {
    SideMatches(c, t, Simulator.Oracle(s, InOf(c, Shadows(t))))
  }

  /** On the isolating pair `ta`, `tb`: the value of each side is listed if the oracle refutes the side. */
  ghost predicate RefutedListed(
      c: Ckt, s: Ckt, ks: seq<nat>, vi: nat, vj: nat, ta: seq<Tern>, tb: seq<Tern>, list: seq<(seq<nat>, nat)>)
    requires Interfaces(c, s)
  {
    && Isolates(c, ks, vi, vj, ta, tb)
    && (!OracleAgrees(c, s, ta) ==> (ks, vi) in list)
    && (!OracleAgrees(c, s, tb) ==> (ks, vj) in list)
  }

  /** What is recorded for an isolating pair, side A first: the value of each side that is refuted. */
  ghost function Refuted(c: Ckt, s: Ckt, ks: seq<nat>, vi: nat, vj: nat, ta: seq<Tern>, tb: seq<Tern>)
    : seq<(seq<nat>, nat)>
    requires Interfaces(c, s) && |ta| == |tb| == |c.nodes|
  {
    (if OracleAgrees(c, s, ta) then [] else [(ks, vi)]) + (if OracleAgrees(c, s, tb) then [] else [(ks, vj)])
  }

  /** On a pair that isolates key `i`, the oracle's answer agrees with the side pinned to `v` only. */
  ghost predicate SingleJudged(c: Ckt, s: Ckt, i: nat, ta: seq<Tern>, tb: seq<Tern>, v: bool)
    requires Interfaces(c, s)
  {
    Isolates(c, [i], 0, 1, ta, tb) && (OracleAgrees(c, s, ta) <==> !v) && (OracleAgrees(c, s, tb) <==> v)
  }

  /** On a pair that isolates key `i`, the oracle's answer agrees with neither side. */
  ghost predicate NeitherAgrees(c: Ckt, s: Ckt, i: nat, ta: seq<Tern>, tb: seq<Tern>)
    requires Interfaces(c, s)
  {
    Isolates(c, [i], 0, 1, ta, tb) && !OracleAgrees(c, s, ta) && !OracleAgrees(c, s, tb)
  }

  class TvSolver {
    const ckt: Ckt
    const simckt: Ckt
    const sim: Simulator.CktEval
    const pm: PairMap
    const dbl: Ckt
    ghost const base: nat
    /** The nodes of `dbl` after `split_gates`. */
    const nodes: seq<Node>
    const S: SatSolver.Solver

    /** The fixed part: `dbl` doubles `ckt`, and `nodes` extends its nodes. */
    ghost predicate Shaped() {
      WellFormed(ckt) && WellFormed(dbl) && IsDouble(ckt, pm, dbl, base) && |dbl.nodes| <= |nodes|
    }

    ghost predicate Valid()
      reads this, S, sim, sim.S
    {
      && Shaped() && Interfaces(ckt, simckt)
      && sim.Valid() && sim.ckt == simckt && sim.S != S
      && SG.Refines(dbl.nodes, nodes)
      && S.Valid() && S.numVars == 2 * |nodes| + 2
      && (forall m :: Sat(m, S.clauses) <==> IsTVal(nodes, TC.TNodes(|nodes|, m)))
    }

    constructor (c: Ckt, s: Simulator.CktEval)
      requires s.Valid() && Interfaces(c, s.ckt) && SG.AllSplittable(c.nodes)
      ensures Valid() && ckt == c && simckt == s.ckt && sim == s && fresh(S)
    {
      var pm0, d;
      ghost var b0;
      pm0, d, b0 := BuildDouble(c);
      DoubleAcyclic(c, pm0, d, b0);
      DoubleSplittable(c, pm0, d, b0);
      var split := new SG.SplitCkt(d.nodes, d.gates);
      split.SplitGates();
      SmallNodes(d.nodes, split.nodes);
      var solver := new SatSolver.Solver();
      TC.InitTernarySolver(split.nodes, split.gates, solver);
      ckt, simckt, sim, pm, dbl, base, nodes, S := c, s.ckt, s, pm0, d, b0, split.nodes, solver;
    }

    lemma Sizes()
      requires Shaped()
      ensures WellFormed(ckt) && |pm| == |ckt.nodes| && |dbl.nodes| <= |nodes|
    {
    }

    /** The three-valued values of `ckt`'s nodes on one side, in a model. */
    function Seen(m: Model, b: bool): (t: seq<Tern>)
      ensures |t| == |pm|
    {
      TPart(pm, TC.TNodes(|nodes|, m), b)
    }

    /** `_set_node_value`: 0, 1 or unknown for the node `n` of the double. */
    method SetNodeValue(n: nat, val: nat, assumps: seq<Lit>) returns (r: seq<Lit>)
      requires val <= 3
      ensures forall m :: AllHold(m, r) <==>
        AllHold(m, assumps) && ValueIs(TC.TernAt(m, TC.TVar(n)), val)
    {
      var u := TC.TVar(n);
      var ls := if val == 0 then [Neg(MkLit(u)), Neg(MkLit(u + 1))]
                else if val == 1 then [Neg(MkLit(u)), MkLit(u + 1)]
                else [MkLit(u)];
      r := assumps + ls;
      forall m
        ensures AllHold(m, r) <==> AllHold(m, assumps) && ValueIs(TC.TernAt(m, u), val)
      {
        AllHoldAppend(m, assumps, ls);
        assert ls[0] in ls;
        assert |ls| == 2 ==> ls[1] in ls;
        assert AllHold(m, ls) <==> ValueIs(TC.TernAt(m, u), val);
      }
    }

    /** The assumptions that the miter's output is known to be true. */
    method AssumeOutput() returns (r: seq<Lit>)
      requires Shaped()
      ensures forall m :: AllHold(m, r) <==> TC.TernAt(m, TC.TVar(base)) == Tern(false, true)
    {
      var nout := dbl.outputs[0];
      r := [Neg(MkLit(TC.TVar(nout))), MkLit(TC.TVar(nout) + 1)];
      assert r[0] in r && r[1] in r;
    }

    /** One step of `_init_assumps`: key `p` on both sides. */
    method PinKey(p: nat, ks: seq<nat>, vi: nat, vj: nat, assumps: seq<Lit>) returns (r: seq<Lit>)
      requires Shaped() && p < |ckt.keyInputs|
      ensures forall m :: AllHold(m, r) <==>
        && AllHold(m, assumps)
        && KeyPinnedIn(ckt, Seen(m, false), ks, vi, p) && KeyPinnedIn(ckt, Seen(m, true), ks, vj, p)
    {
      assert ckt.keyInputs[p] in ckt.keyInputs;
      var nA, nB := pm[ckt.keyInputs[p]].0, pm[ckt.keyInputs[p]].1;
      var found := false;
      r := assumps;
      for j := 0 to |ks|
        invariant found <==> p in ks[..j]
        invariant forall m :: AllHold(m, r) <==>
          && AllHold(m, assumps)
          && PinnedUpTo(TC.TernAt(m, TC.TVar(nA)), ks, vi, p, j)
          && PinnedUpTo(TC.TernAt(m, TC.TVar(nB)), ks, vj, p, j)
      {
        assert ks[..j + 1] == ks[..j] + [ks[j]];
        if p == ks[j] {
          r := SetNodeValue(nA, if BitAt(vi, j) then 1 else 0, r);
          r := SetNodeValue(nB, if BitAt(vj, j) then 1 else 0, r);
          found := true;
        }
      }
      assert ks[..|ks|] == ks;
      if !found {
        r := SetNodeValue(nA, 2, r);
        r := SetNodeValue(nB, 2, r);
      }
      forall m
        ensures AllHold(m, r) <==>
          && AllHold(m, assumps)
          && KeyPinnedIn(ckt, Seen(m, false), ks, vi, p) && KeyPinnedIn(ckt, Seen(m, true), ks, vj, p)
      {
        SeenAt(ckt, pm, dbl, base, |nodes|, m, ckt.keyInputs[p]);
      }
    }

    /** `_init_assumps` for a group of keys and two values for it. */
    method InitAssumpsGroup(assumps: seq<Lit>, ks: seq<nat>, vi: nat, vj: nat) returns (r: seq<Lit>)
      requires Shaped()
      ensures forall m :: AllHold(m, r) <==>
        AllHold(m, assumps) && Pinned(ckt, Seen(m, false), Seen(m, true), ks, vi, vj)
    {
      Sizes();
      hide Shaped, WellFormed, KeyPinnedIn, AllHold;
      r := assumps;
      for p := 0 to |ckt.keyInputs|
        invariant forall m :: AllHold(m, r) <==>
          && AllHold(m, assumps)
          && KeysPinnedTo(ckt, Seen(m, false), ks, vi, p) && KeysPinnedTo(ckt, Seen(m, true), ks, vj, p)
      {
        r := PinKey(p, ks, vi, vj, r);
      }
    }

    /** `_init_assumps` for a single key: 0 on side A, 1 on side B. */
    method InitAssumps(assumps: seq<Lit>, keyIndex: nat) returns (r: seq<Lit>)
      requires Shaped()
      ensures forall m :: AllHold(m, r) <==>
        AllHold(m, assumps) && Pinned(ckt, Seen(m, false), Seen(m, true), [keyIndex], 0, 1)
    {
      Sizes();
      hide Shaped, WellFormed, KeyPinnedIn, AllHold;
      r := assumps;
      for p := 0 to |ckt.keyInputs|
        invariant forall m :: AllHold(m, r) <==>
          && AllHold(m, assumps)
          && KeysPinnedTo(ckt, Seen(m, false), [keyIndex], 0, p) && KeysPinnedTo(ckt, Seen(m, true), [keyIndex], 1, p)
      {
        r := PinSingle(p, keyIndex, r);
      }
    }

    /** One round of the loop of `_init_assumps`. */
    method PinSingle(p: nat, keyIndex: nat, assumps: seq<Lit>) returns (r: seq<Lit>)
      requires Shaped() && p < |ckt.keyInputs|
      ensures forall m :: AllHold(m, r) <==>
        && AllHold(m, assumps)
        && KeyPinnedIn(ckt, Seen(m, false), [keyIndex], 0, p) && KeyPinnedIn(ckt, Seen(m, true), [keyIndex], 1, p)
    {
      assert ckt.keyInputs[p] in ckt.keyInputs;
      var nA, nB := pm[ckt.keyInputs[p]].0, pm[ckt.keyInputs[p]].1;
      if p == keyIndex {
        r := SetNodeValue(nA, 0, assumps);
        r := SetNodeValue(nB, 1, r);
      } else {
        r := SetNodeValue(nA, 2, assumps);
        r := SetNodeValue(nB, 2, r);
      }
      forall m
        ensures AllHold(m, r) <==>
          && AllHold(m, assumps)
          && KeyPinnedIn(ckt, Seen(m, false), [keyIndex], 0, p) && KeyPinnedIn(ckt, Seen(m, true), [keyIndex], 1, p)
      {
        SeenAt(ckt, pm, dbl, base, |nodes|, m, ckt.keyInputs[p]);
        SinglePinned(TC.TernAt(m, TC.TVar(nA)), keyIndex, p);
        SinglePinned(TC.TernAt(m, TC.TVar(nB)), keyIndex, p);
      }
    }

    /** `_extract_inputs`: the shadow values of the circuit inputs. */
    method ExtractInputs() returns (x: seq<bool>)
      requires Shaped()
      ensures x == InOf(ckt, Shadows(Seen(S.model, false)))
    {
      x := [];
      for i := 0 to |ckt.cktInputs|
        invariant |x| == i
        invariant forall j :: 0 <= j < i ==> x[j] == InOf(ckt, Shadows(Seen(S.model, false)))[j]
      {
        assert ckt.cktInputs[i] in ckt.cktInputs;
        SeenAt(ckt, pm, dbl, base, |nodes|, S.model, ckt.cktInputs[i]);
        x := x + [S.ModelValue(MkLit(TC.TVar(pm[ckt.cktInputs[i]].0) + 1))];
      }
    }

    /** Output `i` in `_compare_outputs`; one that is wired to a circuit input is ignored. */
    method CompareOutput(i: nat, y: seq<bool>) returns (aOk: bool, bOk: bool)
      requires Shaped() && i < |y| == |ckt.outputs|
      ensures aOk <==> MatchesAt(ckt, Seen(S.model, false), y, i)
      ensures bOk <==> MatchesAt(ckt, Seen(S.model, true), y, i)
    {
      aOk, bOk := true, true;
      var o := ckt.outputs[i];
      OutputInRange(ckt, i);
      SeenAt(ckt, pm, dbl, base, |nodes|, S.model, o);
      var nA, nB := pm[o].0, pm[o].1;
      if nA == nB {
        return;
      }
      if !S.ModelValue(MkLit(TC.TVar(nA))) {
        var oa := S.ModelValue(MkLit(TC.TVar(nA) + 1));
        if oa != y[i] { aOk := false; }
      }
      if !S.ModelValue(MkLit(TC.TVar(nB))) {
        var ob := S.ModelValue(MkLit(TC.TVar(nB) + 1));
        if ob != y[i] { bOk := false; }
      }
    }

    /** `_compare_outputs`: which sides agree with the oracle's outputs wherever they are known. */
    method CompareOutputs(y: seq<bool>) returns (aCorrect: bool, bCorrect: bool)
      requires Shaped() && |y| == |ckt.outputs|
      ensures aCorrect <==> SideMatches(ckt, Seen(S.model, false), y)
      ensures bCorrect <==> SideMatches(ckt, Seen(S.model, true), y)
    {
      Sizes();
      hide Shaped, WellFormed, TPart, TC.TNodes, MatchesAt, MatchesTo, SideMatches;
      aCorrect, bCorrect := true, true;
      ghost var ta, tb := Seen(S.model, false), Seen(S.model, true);
      MatchesSteps(ckt, ta, y);
      MatchesSteps(ckt, tb, y);
      for i := 0 to |y|
        invariant aCorrect <==> MatchesTo(ckt, ta, y, i)
        invariant bCorrect <==> MatchesTo(ckt, tb, y, i)
      {
        var aOk, bOk := CompareOutput(i, y);
        if !aOk { aCorrect := false; }
        if !bOk { bCorrect := false; }
      }
    }

    /**
     What `solveSingleKeys` and `_isolateKeys` share: solve under the assumptions,
     read off the input, ask the oracle, compare the two sides with its answer.
     */
    method Probe(assumps: seq<Lit>, ghost ks: seq<nat>, ghost vi: nat, ghost vj: nat)
      returns (sat: bool, aCorrect: bool, bCorrect: bool)
      requires Valid()
      requires forall m :: AllHold(m, assumps) <==>
        TC.TernAt(m, TC.TVar(base)) == Tern(false, true) && Pinned(ckt, Seen(m, false), Seen(m, true), ks, vi, vj)
      modifies S`model, sim.S`model
      ensures Valid()
      ensures sat <==> Isolatable(ckt, ks, vi, vj)
      ensures sat ==> Isolates(ckt, ks, vi, vj, Seen(S.model, false), Seen(S.model, true))
      ensures sat ==> (aCorrect <==> OracleAgrees(ckt, simckt, Seen(S.model, false)))
      ensures sat ==> (bCorrect <==> OracleAgrees(ckt, simckt, Seen(S.model, true)))
      ensures sat ==> !(aCorrect && bCorrect)
      ensures sat ==> forall k :: CorrectKey(ckt, simckt, k) && HasValue(k, ks, vi) ==> aCorrect
      ensures sat ==> forall k :: CorrectKey(ckt, simckt, k) && HasValue(k, ks, vj) ==> bCorrect
    {
      hide Isolates, SideMatches, OracleAgrees, TPart, TC.TNodes, CorrectKey, HasValue, Pinned;
      aCorrect, bCorrect := false, false;
      sat := S.Solve(assumps);
      if Isolatable(ckt, ks, vi, vj) {
        var m := IsolatingModel(ckt, pm, dbl, base, nodes, ks, vi, vj);
        assert IsModel(m, S.numVars, S.clauses, assumps);
      }
      if sat {
        ghost var ta, tb := Seen(S.model, false), Seen(S.model, true);
        ModelIsolates(ckt, pm, dbl, base, nodes, ks, vi, vj, S.model);
        var x := ExtractInputs();
        var y := sim.Eval(x);
        aCorrect, bCorrect := CompareOutputs(y);
        SidesJudged(ckt, simckt, ks, vi, vj, ta, tb, y);
      }
    }

    /**
     `solveSingleKeys`.  `ok` is false when an assertion fails: on an isolating input the oracle
     agrees with neither side, which never happens if a correct key exists.  A recorded bit is
     that of the side the oracle agrees with, and so that bit of every correct key; a bit is
     recorded exactly when the key can be isolated.
     */
    method SolveSingleKeys() returns (ok: bool, values: map<nat, bool>)
      requires Valid()
      modifies S`model, sim.S`model
      ensures Valid()
      ensures (exists k :: CorrectKey(ckt, simckt, k)) ==> ok
      ensures !ok ==>
        exists i: nat :: i < |ckt.keyInputs| && NeitherAgrees(ckt, simckt, i, Seen(S.model, false), Seen(S.model, true))
      ensures forall i :: i in values ==> exists ta, tb :: SingleJudged(ckt, simckt, i, ta, tb, values[i])
      ensures ok ==> forall i: nat :: i in values <==> i < |ckt.keyInputs| && Isolatable(ckt, [i], 0, 1)
      ensures forall i, k :: i in values && CorrectKey(ckt, simckt, k) ==> i < |k| && k[i] == values[i]
    {
      hide Isolatable, CorrectKey, HasValue, Shaped, Isolates, OracleAgrees, SingleJudged, NeitherAgrees, TPart;
      values := map[];
      for i := 0 to |ckt.keyInputs|
        invariant Valid()
        invariant forall p :: p in values ==> exists ta, tb :: SingleJudged(ckt, simckt, p, ta, tb, values[p])
        invariant forall p: nat :: p in values <==> p < i && Isolatable(ckt, [p], 0, 1)
        invariant forall p, k :: p in values && CorrectKey(ckt, simckt, k) ==> p < |k| && k[p] == values[p]
      {
        var assumps := AssumeOutput();
        assumps := InitAssumps(assumps, i);
        var sat, a, b := Probe(assumps, [i], 0, 1);
        SingleSettles(ckt, simckt, i, sat, a, b);
        if sat {
          JudgedOf(ckt, simckt, i, Seen(S.model, false), Seen(S.model, true), a, b);
          if a == b {
            return false, values;
          }
          values := values[i := !a];
        }
      }
      ok := true;
    }

    /**
     `_isolateKeys`: the values of the group that the oracle's answer rules out.  If an isolating
     input is found, the value of each side is recorded exactly if the oracle's answer on that
     input contradicts the side.
     */
    method IsolateKeys(keys: seq<nat>, vi: nat, vj: nat, keysets: seq<(seq<nat>, nat)>)
      returns (cnt: nat, keysets': seq<(seq<nat>, nat)>)
      requires Valid()
      modifies S`model, sim.S`model
      ensures Valid()
      ensures keysets <= keysets' && |keysets'| == |keysets| + cnt
      ensures cnt >= 1 <==> Isolatable(ckt, keys, vi, vj)
      ensures cnt >= 1 ==> Isolates(ckt, keys, vi, vj, Seen(S.model, false), Seen(S.model, true))
      ensures cnt >= 1 ==>
        keysets' == keysets + Refuted(ckt, simckt, keys, vi, vj, Seen(S.model, false), Seen(S.model, true))
      ensures forall e :: e in keysets'[|keysets|..] ==>
        e.0 == keys && (e.1 == vi || e.1 == vj) && Excluded(ckt, simckt, keys, e.1)
    {
      hide Isolatable, Isolates, HasValue, SideMatches, OracleAgrees, CorrectKey, Shaped, Pinned, TPart, TC.TNodes;
      var assumps := AssumeOutput();
      assumps := InitAssumpsGroup(assumps, keys, vi, vj);
      var sat, a, b := Probe(assumps, keys, vi, vj);
      cnt, keysets' := 0, keysets;
      if sat {
        assert !a || !b;
        cnt := (if !a then 1 else 0) + (if !b then 1 else 0);
        if !a {
          keysets' := keysets' + [(keys, vi)];
        }
        if !b {
          keysets' := keysets' + [(keys, vj)];
        }
      }
    }

    /** `solveDoubleKeys`, given the key pairs that `identify_keypairs` finds. */
    method SolveDoubleKeys(keypairs: seq<(nat, nat)>) returns (cnt: nat, keysets: seq<(seq<nat>, nat)>)
      requires Valid()
      modifies S`model, sim.S`model
      ensures Valid()
      ensures cnt == |keysets|
      ensures forall e :: e in keysets ==> Excluded(ckt, simckt, e.0, e.1)
      ensures forall p, vi, vj :: p in keypairs && vj < vi <= 3 && Isolatable(ckt, [p.0, p.1], vi, vj) ==>
        exists ta, tb :: RefutedListed(ckt, simckt, [p.0, p.1], vi, vj, ta, tb, keysets)
      ensures forall p, vi, vj :: p in keypairs && vj < vi <= 3 && Isolatable(ckt, [p.0, p.1], vi, vj) ==>
        ([p.0, p.1], vi) in keysets || ([p.0, p.1], vj) in keysets
    {
      hide Isolatable, Isolates, Excluded, TriedBelow, Refuted, Interfaces, Shaped;
      Sizes();
      cnt, keysets := 0, [];
      for n := 0 to |keypairs|
        invariant Valid() && Interfaces(ckt, simckt) && cnt == |keysets| && AllExcluded(ckt, simckt, keysets)
        invariant PairsTried(ckt, simckt, keypairs[..n], keysets)
      {
        var keys := [keypairs[n].0, keypairs[n].1];
        TriedStart(ckt, simckt, keys, keysets);
        for vi := 0 to 4
          invariant Valid() && Interfaces(ckt, simckt) && cnt == |keysets| && AllExcluded(ckt, simckt, keysets)
          invariant PairsTried(ckt, simckt, keypairs[..n], keysets)
          invariant TriedBelow(ckt, simckt, keys, keysets, vi, 0)
        {
          for vj := 0 to vi
            invariant Valid() && Interfaces(ckt, simckt) && cnt == |keysets| && AllExcluded(ckt, simckt, keysets)
            invariant PairsTried(ckt, simckt, keypairs[..n], keysets)
            invariant TriedBelow(ckt, simckt, keys, keysets, vi, vj)
          {
            var more;
            ghost var before := keysets;
            more, keysets := IsolateKeys(keys, vi, vj, keysets);
            cnt := cnt + more;
            TriedGrows(
              ckt, simckt, keypairs[..n], keys, before, keysets, vi, vj, Seen(S.model, false), Seen(S.model, true));
          }
          TriedNext(ckt, simckt, keys, keysets, vi);
        }
        assert keypairs[..n + 1] == keypairs[..n] + [keypairs[n]];
      }
      assert keypairs[..|keypairs|] == keypairs;
      TriedAll(ckt, simckt, keypairs, keysets);
    }
  }

  ghost predicate AllExcluded(c: Ckt, s: Ckt, list: seq<(seq<nat>, nat)>)
    requires Interfaces(c, s)
  {
    forall e :: e in list ==> Excluded(c, s, e.0, e.1)
  }

  ghost predicate PairsTried(c: Ckt, s: Ckt, pairs: seq<(nat, nat)>, list: seq<(seq<nat>, nat)>)
    requires Interfaces(c, s)
  {
    forall p :: p in pairs ==> TriedBelow(c, s, [p.0, p.1], list, 4, 0)
  }

  /** Of each isolatable combination (below `vi`, or at `vi` below `vj`) the refuted values are on the list. */
  ghost predicate TriedBelow(c: Ckt, s: Ckt, keys: seq<nat>, keysets: seq<(seq<nat>, nat)>, vi: nat, vj: nat)
    requires Interfaces(c, s)
  {
    forall v, w: nat :: w < v && (v < vi || (v == vi && w < vj)) && Isolatable(c, keys, v, w) ==>
      exists ta, tb :: RefutedListed(c, s, keys, v, w, ta, tb, keysets)
  }

  lemma TriedStart(c: Ckt, s: Ckt, keys: seq<nat>, ks: seq<(seq<nat>, nat)>)
    requires Interfaces(c, s)
    ensures TriedBelow(c, s, keys, ks, 0, 0)
  {
  }

  lemma TriedNext(c: Ckt, s: Ckt, keys: seq<nat>, ks: seq<(seq<nat>, nat)>, vi: nat)
    requires Interfaces(c, s) && TriedBelow(c, s, keys, ks, vi, vi)
    ensures TriedBelow(c, s, keys, ks, vi + 1, 0)
  {
    hide Interfaces, Isolatable, RefutedListed;
  }

  lemma TriedAll(c: Ckt, s: Ckt, pairs: seq<(nat, nat)>, ks: seq<(seq<nat>, nat)>)
    requires Interfaces(c, s) && PairsTried(c, s, pairs, ks)
    ensures forall p, vi, vj :: p in pairs && vj < vi <= 3 && Isolatable(c, [p.0, p.1], vi, vj) ==>
      exists ta, tb :: RefutedListed(c, s, [p.0, p.1], vi, vj, ta, tb, ks)
    ensures forall p, vi, vj :: p in pairs && vj < vi <= 3 && Isolatable(c, [p.0, p.1], vi, vj) ==>
      ([p.0, p.1], vi) in ks || ([p.0, p.1], vj) in ks
  {
    hide Isolatable, RefutedListed;
    forall p, vi, vj | p in pairs && vj < vi <= 3 && Isolatable(c, [p.0, p.1], vi, vj)
      ensures exists ta, tb :: RefutedListed(c, s, [p.0, p.1], vi, vj, ta, tb, ks)
      ensures ([p.0, p.1], vi) in ks || ([p.0, p.1], vj) in ks
    {
      assert TriedBelow(c, s, [p.0, p.1], ks, 4, 0);
      var ta, tb :| RefutedListed(c, s, [p.0, p.1], vi, vj, ta, tb, ks);
      OneRefuted(c, s, [p.0, p.1], vi, vj, ta, tb, ks);
    }
  }

  lemma TriedStays(
      c: Ckt, s: Ckt, keys: seq<nat>, ks: seq<(seq<nat>, nat)>, ks': seq<(seq<nat>, nat)>, vi: nat, vj: nat)
    requires Interfaces(c, s) && ks <= ks' && TriedBelow(c, s, keys, ks, vi, vj)
    ensures TriedBelow(c, s, keys, ks', vi, vj)
  {
    assert forall e :: e in ks ==> e in ks';
    forall v, w: nat | w < v && (v < vi || (v == vi && w < vj)) && Isolatable(c, keys, v, w)
      ensures exists ta, tb :: RefutedListed(c, s, keys, v, w, ta, tb, ks')
    {
      var ta, tb :| RefutedListed(c, s, keys, v, w, ta, tb, ks);
      assert RefutedListed(c, s, keys, v, w, ta, tb, ks');
    }
  }

  lemma TriedGrows(
      c: Ckt, s: Ckt, done: seq<(nat, nat)>, keys: seq<nat>, ks: seq<(seq<nat>, nat)>, ks': seq<(seq<nat>, nat)>,
      vi: nat, vj: nat, ta: seq<Tern>, tb: seq<Tern>)
    requires Interfaces(c, s) && ks <= ks' && vj < vi
    requires |ta| == |tb| == |c.nodes|
    requires PairsTried(c, s, done, ks) && TriedBelow(c, s, keys, ks, vi, vj) && AllExcluded(c, s, ks)
    requires Isolatable(c, keys, vi, vj) ==>
      Isolates(c, keys, vi, vj, ta, tb) && ks' == ks + Refuted(c, s, keys, vi, vj, ta, tb)
    requires forall e :: e in ks'[|ks|..] ==> e.0 == keys && Excluded(c, s, keys, e.1)
    ensures PairsTried(c, s, done, ks') && TriedBelow(c, s, keys, ks', vi, vj + 1) && AllExcluded(c, s, ks')
  {
    hide Isolatable, Isolates, Excluded, OracleAgrees;
    assert ks' == ks + ks'[|ks|..];
    if Isolatable(c, keys, vi, vj) {
      assert !OracleAgrees(c, s, ta) ==> (keys, vi) == Refuted(c, s, keys, vi, vj, ta, tb)[0];
      assert RefutedListed(c, s, keys, vi, vj, ta, tb, ks');
    }
    forall p | p in done
      ensures TriedBelow(c, s, [p.0, p.1], ks', 4, 0)
    {
      TriedStays(c, s, [p.0, p.1], ks, ks', 4, 0);
    }
    TriedStays(c, s, keys, ks, ks', vi, vj);
  }

  /** One of the two values of an isolating pair is refuted, so it is on the list. */
  lemma OneRefuted(
      c: Ckt, s: Ckt, ks: seq<nat>, vi: nat, vj: nat, ta: seq<Tern>, tb: seq<Tern>, list: seq<(seq<nat>, nat)>)
    requires Interfaces(c, s) && RefutedListed(c, s, ks, vi, vj, ta, tb, list)
    ensures (ks, vi) in list || (ks, vj) in list
  {
    SharedShadows(c, ta, tb);
    NotBothMatch(c, ta, tb, Simulator.Oracle(s, InOf(c, Shadows(ta))));
  }

  lemma JudgedOf(c: Ckt, s: Ckt, i: nat, ta: seq<Tern>, tb: seq<Tern>, a: bool, b: bool)
    requires Interfaces(c, s) && Isolates(c, [i], 0, 1, ta, tb) && !(a && b)
    requires (a <==> OracleAgrees(c, s, ta)) && (b <==> OracleAgrees(c, s, tb))
    ensures if a == b then NeitherAgrees(c, s, i, ta, tb) else SingleJudged(c, s, i, ta, tb, !a)
  {
  }

  /** A probed single key: exactly one side is right, and it is the one with the correct bit. */
  lemma SingleSettles(c: Ckt, s: Ckt, i: nat, sat: bool, a: bool, b: bool)
    requires GoodCkt(c) && GoodCkt(s) && |s.cktInputs| == |c.cktInputs| && i < |c.keyInputs|
    requires sat ==> !(a && b)
    requires sat ==> forall k :: CorrectKey(c, s, k) && HasValue(k, [i], 0) ==> a
    requires sat ==> forall k :: CorrectKey(c, s, k) && HasValue(k, [i], 1) ==> b
    ensures forall k :: CorrectKey(c, s, k) ==> i < |k| && (sat ==> a != b && k[i] == b)
  {
    forall k | CorrectKey(c, s, k)
      ensures i < |k| && (sat ==> a != b && k[i] == b)
    {
      SingleValue(k, i);
    }
  }

  lemma SingleValue(k: seq<bool>, i: nat)
    requires i < |k|
    ensures HasValue(k, [i], 0) <==> !k[i]
    ensures HasValue(k, [i], 1) <==> k[i]
  {
    assert !BitAt(0, 0) && BitAt(1, 0);
    var single := [i];
    assert single[0] == i;
  }

  /** With the oracle's answer at hand: one side at least is wrong, and no correct key is on a wrong side. */
  lemma SidesJudged(
      c: Ckt, s: Ckt, ks: seq<nat>, vi: nat, vj: nat, ta: seq<Tern>, tb: seq<Tern>, y: seq<bool>)
    requires Interfaces(c, s) && Isolates(c, ks, vi, vj, ta, tb)
    requires y == Simulator.Oracle(s, InOf(c, Shadows(ta)))
    ensures SideMatches(c, ta, y) <==> OracleAgrees(c, s, ta)
    ensures SideMatches(c, tb, y) <==> OracleAgrees(c, s, tb)
    ensures !(SideMatches(c, ta, y) && SideMatches(c, tb, y))
    ensures forall k :: CorrectKey(c, s, k) && HasValue(k, ks, vi) ==> SideMatches(c, ta, y)
    ensures forall k :: CorrectKey(c, s, k) && HasValue(k, ks, vj) ==> SideMatches(c, tb, y)
  {
    NotBothMatch(c, ta, tb, y);
    SharedShadows(c, ta, tb);
    forall k | CorrectKey(c, s, k) && HasValue(k, ks, vi) ensures SideMatches(c, ta, y) {
      CorrectSideMatches(c, s, ta, ks, vi, k, y);
    }
    forall k | CorrectKey(c, s, k) && HasValue(k, ks, vj) ensures SideMatches(c, tb, y) {
      CorrectSideMatches(c, s, tb, ks, vj, k, y);
    }
  }

  lemma SharedShadows(c: Ckt, ta: seq<Tern>, tb: seq<Tern>)
    requires WellFormed(c) && |ta| == |tb| == |c.nodes| && SharesInputs(c, ta, tb)
    ensures InOf(c, Shadows(ta)) == InOf(c, Shadows(tb))
  {
    forall p | 0 <= p < |c.cktInputs|
      ensures InOf(c, Shadows(ta))[p] == InOf(c, Shadows(tb))[p]
    {
      assert c.cktInputs[p] in c.cktInputs;
    }
  }

  /** A model of the assumptions isolates the group. */
  lemma ModelIsolates(
      c: Ckt, pm: PairMap, d: Ckt, base: nat, ns: seq<Node>, ks: seq<nat>, vi: nat, vj: nat, m: Model)
    requires WellFormed(c) && |c.outputs| >= 1 && WellFormed(d) && IsDouble(c, pm, d, base)
    requires SG.Refines(d.nodes, ns) && IsTVal(ns, TC.TNodes(|ns|, m))
    requires TC.TernAt(m, TC.TVar(base)) == Tern(false, true)
    requires Pinned(c, TPart(pm, TC.TNodes(|ns|, m), false), TPart(pm, TC.TNodes(|ns|, m), true), ks, vi, vj)
    ensures Isolates(c, ks, vi, vj, TPart(pm, TC.TNodes(|ns|, m), false), TPart(pm, TC.TNodes(|ns|, m), true))
  {
    var t' := TC.TNodes(|ns|, m);
    var t := t'[..|d.nodes|];
    PartOfPrefix(c, pm, d, base, t', t);
    TDoubleMeaning(c, pm, d, base, t);
    MiterKnownTrue(c, base, t, TPart(pm, t, false), TPart(pm, t, true));
    PartsShare(c, pm, d, base, t);
  }

  lemma PartOfPrefix(c: Ckt, pm: PairMap, d: Ckt, base: nat, t': seq<Tern>, t: seq<Tern>)
    requires WellFormed(c) && IsDouble(c, pm, d, base) && |t| == |d.nodes| && t <= t'
    ensures TPart(pm, t', false) == TPart(pm, t, false) && TPart(pm, t', true) == TPart(pm, t, true)
  {
  }

  /** If the group can be isolated at all, some model of the encoding does it. */
  lemma IsolatingModel(
      c: Ckt, pm: PairMap, d: Ckt, base: nat, ns: seq<Node>, ks: seq<nat>, vi: nat, vj: nat)
    returns (m: Model)
    requires WellFormed(c) && |c.outputs| >= 1 && WellFormed(d) && IsDouble(c, pm, d, base)
    requires SG.Refines(d.nodes, ns) && Isolatable(c, ks, vi, vj)
    ensures |m| == 2 * |ns| + 2 && IsTVal(ns, TC.TNodes(|ns|, m))
    ensures TC.TernAt(m, TC.TVar(base)) == Tern(false, true)
    ensures Pinned(c, TPart(pm, TC.TNodes(|ns|, m), false), TPart(pm, TC.TNodes(|ns|, m), true), ks, vi, vj)
  {
    var ta, tb :| Isolates(c, ks, vi, vj, ta, tb);
    var t := TDoubleCombine(c, pm, d, base, ta, tb);
    var t' :| t <= t' && IsTVal(ns, t');
    m := Encode(t') + [false];
    EncodeNodes(t', [false]);
    assert TC.TNodes(|ns|, m)[base] == TC.TernAt(m, TC.TVar(base));
    PartOfPrefix(c, pm, d, base, t', t);
  }

  ghost predicate MatchesTo(c: Ckt, t: seq<Tern>, y: seq<bool>, n: nat)
    requires WellFormed(c) && |t| == |c.nodes| && n <= |y| == |c.outputs|
  {
    forall j :: 0 <= j < n ==> MatchesAt(c, t, y, j)
  }

  lemma MatchesSteps(c: Ckt, t: seq<Tern>, y: seq<bool>)
    requires WellFormed(c) && |t| == |c.nodes| && |y| == |c.outputs|
    ensures MatchesTo(c, t, y, 0) && (SideMatches(c, t, y) <==> MatchesTo(c, t, y, |y|))
    ensures forall i {:trigger MatchesAt(c, t, y, i)} :: 0 <= i < |y| ==>
      (MatchesTo(c, t, y, i + 1) <==> MatchesTo(c, t, y, i) && MatchesAt(c, t, y, i))
  {
    forall i: nat | i < |y|
      ensures MatchesTo(c, t, y, i + 1) <==> MatchesTo(c, t, y, i) && MatchesAt(c, t, y, i)
    {
      if MatchesTo(c, t, y, i + 1) {
        assert forall j :: 0 <= j < i ==> MatchesAt(c, t, y, j);
      }
    }
  }

  ghost predicate Pinned(c: Ckt, ta: seq<Tern>, tb: seq<Tern>, ks: seq<nat>, vi: nat, vj: nat)
    requires WellFormed(c) && |ta| == |tb| == |c.nodes|
  {
    KeysPinnedTo(c, ta, ks, vi, |c.keyInputs|) && KeysPinnedTo(c, tb, ks, vj, |c.keyInputs|)
  }

  ghost predicate PinnedUpTo(q: Tern, ks: seq<nat>, v: nat, p: nat, n: nat) {
    forall j :: 0 <= j < n && j < |ks| && ks[j] == p ==> q == Tern(false, BitAt(v, j))
  }

  lemma OutputInRange(c: Ckt, j: nat)
    requires WellFormed(c) && j < |c.outputs|
    ensures c.outputs[j] < |c.nodes|
  {
    assert c.outputs[j] in c.outputs;
  }

  lemma SinglePinned(q: Tern, key: nat, p: nat)
    ensures KeyPinned(q, [key], 0, p) <==> ValueIs(q, if p == key then 0 else 2)
    ensures KeyPinned(q, [key], 1, p) <==> ValueIs(q, if p == key then 1 else 2)
  {
    assert !BitAt(0, 0) && BitAt(1, 0);
    var ks := [key];
    assert ks[0] == key;
  }

  /** Where the three-valued value of node `k` of each side is kept, and when the sides share it. */
  lemma SeenAt(c: Ckt, pm: PairMap, d: Ckt, base: nat, n: nat, m: Model, k: nat)
    requires WellFormed(c) && IsDouble(c, pm, d, base) && k < |c.nodes| && |d.nodes| <= n
    ensures |pm| == |c.nodes|
    ensures TPart(pm, TC.TNodes(n, m), false)[k] == TC.TernAt(m, TC.TVar(pm[k].0))
    ensures TPart(pm, TC.TNodes(n, m), true)[k] == TC.TernAt(m, TC.TVar(pm[k].1))
    ensures pm[k].0 == pm[k].1 <==> c.nodes[k].CktIn?
  {
  }

  ghost predicate ValueIs(q: Tern, val: nat) {
    if val == 0 then q == Tern(false, false) else if val == 1 then q == Tern(false, true) else q.x
  }

  lemma AllHoldAppend(m: Model, a: seq<Lit>, b: seq<Lit>)
    ensures AllHold(m, a + b) <==> AllHold(m, a) && AllHold(m, b)
  {
    if AllHold(m, a + b) {
      forall l | l in a ensures Holds(m, l) { assert l in a + b; }
      forall l | l in b ensures Holds(m, l) { assert l in a + b; }
    }
  }

  ghost predicate Interfaces(c: Ckt, s: Ckt) {
    && GoodCkt(c) && GoodCkt(s) && |c.outputs| >= 1
    && |s.cktInputs| == |c.cktInputs| && |s.outputs| == |c.outputs|
  }

  lemma SmallNodes(ns0: seq<Node>, ns: seq<Node>)
    requires SG.Refines(ns0, ns) && forall k :: 0 <= k < |ns| ==> SG.Small(ns[k])
    ensures NodesShaped(ns) && TC.TernaryNodes(ns)
  {
    SG.RefinesShaped(ns0, ns);
    forall i | 0 <= i < |ns| && ns[i].Gate?
      ensures TC.TernaryArity(ns[i].func, |ns[i].fanins|) && forall j :: j in ns[i].fanins ==> j < |ns|
    {
      assert GateShape(ns[i], |ns|) && SG.Small(ns[i]);
    }
  }

  /** The doubled netlist meets what `split_gates` needs. */
  lemma DoubleSplittable(c: Ckt, pm: PairMap, d: Ckt, base: nat)
    requires WellFormed(c) && SG.AllSplittable(c.nodes) && WellFormed(d) && IsDouble(c, pm, d, base) && Acyclic(d)
    requires |c.outputs| >= 1
    ensures NodesShaped(d.nodes) && SG.AllSplittable(d.nodes) && AcyclicNodes(d.nodes)
    ensures TC.ListsGates(d.nodes, d.gates) && NoDup(d.gates)
  {
    forall p | 0 <= p < |d.nodes|
      ensures SG.Splittable(d.nodes[p])
    {
      assert GateShape(d.nodes[p], |d.nodes|);
      if p < base {
        var k, b := OwnerSide(c, pm, d, base, p);
        assert CopyOf(c, pm, k, b, d.nodes[p]);
        assert SG.Splittable(c.nodes[k]);
      } else if p > base {
        var j: nat := p - base - 1;
        assert c.outputs[j] in c.outputs;
      }
    }
    var rank :| IsRank(d, rank);
    assert RanksNodes(d.nodes, rank);
  }
}
