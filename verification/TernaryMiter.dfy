/**
 Three-valued valuations of the doubled netlist: its output is known to be true
 exactly when some output is known on both copies and differs.  A side whose known
 key bits are those of a correct key shows only correct known outputs.
 */
module TernaryMiter {
  import opened Netlist
  import opened Ternary
  import opened DoubleCkt
  import opened AttackState
  import TernaryClauses

  /** The three-valued valuation of `c` that one copy carries. */
  function TPart(pm: PairMap, t: seq<Tern>, b: bool): (r: seq<Tern>)
    ensures |r| == |pm|
  {
    seq(|pm|, k requires 0 <= k < |pm| =>
      if Side(pm[k], b) < |t| then t[Side(pm[k], b)] else Tern(false, false))
  }

  lemma TPartGate(c: Ckt, pm: PairMap, d: Ckt, base: nat, t: seq<Tern>, k: nat, b: bool)
    requires WellFormed(c) && WellFormed(d) && IsDouble(c, pm, d, base) && k < |c.nodes|
    requires |t| == |d.nodes|
    ensures TGateHolds(d.nodes, t, Side(pm[k], b)) <==> TGateHolds(c.nodes, TPart(pm, t, b), k)
  {
    assert CopyOf(c, pm, k, b, d.nodes[Side(pm[k], b)]);
    if c.nodes[k].Gate? {
      var ins := c.nodes[k].fanins;
      forall i | 0 <= i < |ins|
        ensures TVals(t, Image(pm, ins, b))[i] == TVals(TPart(pm, t, b), ins)[i]
      {
        assert ins[i] in ins;
      }
      assert TVals(t, Image(pm, ins, b)) == TVals(TPart(pm, t, b), ins);
    }
  }

  /** What the comparator of output `j` shows. */
  ghost function Compared(c: Ckt, ta: seq<Tern>, tb: seq<Tern>, j: nat): Tern
    requires WellFormed(c) && |ta| == |tb| == |c.nodes| && j < |c.outputs|
  {
    assert c.outputs[j] in c.outputs;
    var p, q := ta[c.outputs[j]], tb[c.outputs[j]];
    Tern(p.x || q.x, p.v != q.v)
  }

  ghost function AllCompared(c: Ckt, ta: seq<Tern>, tb: seq<Tern>): (r: seq<Tern>)
    requires WellFormed(c) && |ta| == |tb| == |c.nodes|
    ensures |r| == |c.outputs|
  {
    seq(|c.outputs|, j requires 0 <= j < |c.outputs| => Compared(c, ta, tb, j))
  }

  ghost predicate TCompares(c: Ckt, base: nat, t: seq<Tern>, ta: seq<Tern>, tb: seq<Tern>)
    requires WellFormed(c) && |c.outputs| >= 1 && |ta| == |tb| == |c.nodes| && |t| == base + 1 + |c.outputs|
  {
    t[base + 1..] == AllCompared(c, ta, tb) && t[base] == TApply(Or, AllCompared(c, ta, tb))
  }

  lemma TComparatorHolds(c: Ckt, pm: PairMap, d: Ckt, base: nat, t: seq<Tern>, j: nat)
    requires WellFormed(c) && WellFormed(d) && IsDouble(c, pm, d, base) && j < |c.outputs|
    requires |t| == |d.nodes|
    ensures TGateHolds(d.nodes, t, base + 1 + j) <==>
      t[base + 1..][j] == Compared(c, TPart(pm, t, false), TPart(pm, t, true), j)
  {
    var o := c.outputs[j];
    assert o in c.outputs;
    var p, q := t[pm[o].0], t[pm[o].1];
    assert TVals(t, [pm[o].0, pm[o].1]) == [p, q];
    TernaryClauses.PairOf(p, q);
  }

  lemma TFinalOrHolds(c: Ckt, pm: PairMap, d: Ckt, base: nat, t: seq<Tern>)
    requires WellFormed(c) && WellFormed(d) && IsDouble(c, pm, d, base) && |c.outputs| >= 1
    requires |t| == |d.nodes|
    ensures TGateHolds(d.nodes, t, base) <==> t[base] == TApply(Or, t[base + 1..])
  {
    assert TVals(t, seq(|c.outputs|, j => base + 1 + j)) == t[base + 1..];
  }

  /** A three-valued valuation of the double is a pair of such valuations with their comparison. */
  lemma TDoubleMeaning(c: Ckt, pm: PairMap, d: Ckt, base: nat, t: seq<Tern>)
    requires WellFormed(c) && WellFormed(d) && IsDouble(c, pm, d, base) && |c.outputs| >= 1
    requires |t| == |d.nodes|
    ensures IsTVal(d.nodes, t) <==>
      && IsTVal(c.nodes, TPart(pm, t, false)) && IsTVal(c.nodes, TPart(pm, t, true))
      && TCompares(c, base, t, TPart(pm, t, false), TPart(pm, t, true))
  {
    hide TApply, IsDouble, GateShape, TGateHolds, TPart;
    SideInRange(c, pm, d, base, 0, false);
    var ta, tb := TPart(pm, t, false), TPart(pm, t, true);
    forall k, b | 0 <= k < |c.nodes|
      ensures Side(pm[k], b) < |d.nodes|
      ensures TGateHolds(d.nodes, t, Side(pm[k], b)) <==> TGateHolds(c.nodes, TPart(pm, t, b), k)
    {
      SideInRange(c, pm, d, base, k, b);
      TPartGate(c, pm, d, base, t, k, b);
    }
    forall j | 0 <= j < |c.outputs|
      ensures TGateHolds(d.nodes, t, base + 1 + j) <==> t[base + 1..][j] == AllCompared(c, ta, tb)[j]
    {
      TComparatorHolds(c, pm, d, base, t, j);
    }
    TFinalOrHolds(c, pm, d, base, t);
    if IsTVal(d.nodes, t) {
      forall k, b | 0 <= k < |c.nodes| ensures TGateHolds(c.nodes, TPart(pm, t, b), k) {
        assert TGateHolds(d.nodes, t, Side(pm[k], b));
      }
      forall j | 0 <= j < |c.outputs| ensures t[base + 1..][j] == AllCompared(c, ta, tb)[j] {
        assert TGateHolds(d.nodes, t, base + 1 + j);
      }
      assert TGateHolds(d.nodes, t, base);
    }
    if IsTVal(c.nodes, ta) && IsTVal(c.nodes, tb) && TCompares(c, base, t, ta, tb) {
      forall p | 0 <= p < |d.nodes|
        ensures TGateHolds(d.nodes, t, p)
      {
        if p < base {
          var k, b := OwnerSide(c, pm, d, base, p);
          assert TGateHolds(c.nodes, TPart(pm, t, b), k);
        } else if p > base {
          var j := p - base - 1;
          assert t[base + 1..][j] == AllCompared(c, ta, tb)[j];
        }
      }
    }
  }

  lemma SideInRange(c: Ckt, pm: PairMap, d: Ckt, base: nat, k: nat, b: bool)
    requires WellFormed(c) && IsDouble(c, pm, d, base)
    ensures |pm| == |c.nodes| && |d.nodes| == base + 1 + |c.outputs|
    ensures k < |c.nodes| ==> Side(pm[k], b) < base
  {
  }

  // ----- what a known output of the miter says -----

  /** Output `j` is known on both sides and differs. */
  ghost predicate DifferAt(c: Ckt, ta: seq<Tern>, tb: seq<Tern>, j: nat)
    requires WellFormed(c) && |ta| == |tb| == |c.nodes| && j < |c.outputs|
  {
    Compared(c, ta, tb, j) == Tern(false, true)
  }

  ghost predicate SurelyDiffer(c: Ckt, ta: seq<Tern>, tb: seq<Tern>)
    requires WellFormed(c) && |ta| == |tb| == |c.nodes|
  {
    exists j :: 0 <= j < |c.outputs| && DifferAt(c, ta, tb, j)
  }

  lemma MiterKnownTrue(c: Ckt, base: nat, t: seq<Tern>, ta: seq<Tern>, tb: seq<Tern>)
    requires WellFormed(c) && |c.outputs| >= 1 && |ta| == |tb| == |c.nodes| && |t| == base + 1 + |c.outputs|
    requires TCompares(c, base, t, ta, tb)
    ensures t[base] == Tern(false, true) <==> SurelyDiffer(c, ta, tb)
  {
    var ts := AllCompared(c, ta, tb);
    if SurelyDiffer(c, ta, tb) {
      var j :| 0 <= j < |c.outputs| && DifferAt(c, ta, tb, j);
      assert ts[j] == Tern(false, true);
      assert Shadows(ts)[j];
    }
    if t[base] == Tern(false, true) {
      KnownShape(ts);
      var j :| 0 <= j < |ts| && ts[j] == Tern(false, true);
      assert DifferAt(c, ta, tb, j);
    }
  }

  /** The two sides see the same circuit inputs. */
  ghost predicate SharesInputs(c: Ckt, ta: seq<Tern>, tb: seq<Tern>)
    requires |ta| == |tb| == |c.nodes|
  {
    forall k :: 0 <= k < |c.nodes| && c.nodes[k].CktIn? ==> ta[k] == tb[k]
  }

  lemma PartsShare(c: Ckt, pm: PairMap, d: Ckt, base: nat, t: seq<Tern>)
    requires WellFormed(c) && IsDouble(c, pm, d, base)
    ensures SharesInputs(c, TPart(pm, t, false), TPart(pm, t, true))
  {
  }

  // ----- putting two sides together -----

  ghost function TCopies(c: Ckt, pm: PairMap, base: nat, ta: seq<Tern>, tb: seq<Tern>): (r: seq<Tern>)
    requires |pm| == |c.nodes| == |ta| == |tb| && PairsLaid(c, pm, |c.nodes|, base)
    ensures |r| == base
  {
    seq(base, p requires 0 <= p < base =>
      var k := OwnerOf(c, pm, base, p);
      if pm[k].0 == p then ta[k] else tb[k])
  }

  lemma TCopiesParts(c: Ckt, pm: PairMap, base: nat, ta: seq<Tern>, tb: seq<Tern>, tail: seq<Tern>)
    requires |pm| == |c.nodes| == |ta| == |tb| && PairsLaid(c, pm, |c.nodes|, base) && SharesInputs(c, ta, tb)
    ensures TPart(pm, TCopies(c, pm, base, ta, tb) + tail, false) == ta
    ensures TPart(pm, TCopies(c, pm, base, ta, tb) + tail, true) == tb
  {
    var t := TCopies(c, pm, base, ta, tb) + tail;
    forall k | 0 <= k < |c.nodes|
      ensures t[pm[k].0] == ta[k] && t[pm[k].1] == tb[k]
    {
      OnlyOwner(c, pm, base, k);
      assert OwnerOf(c, pm, base, pm[k].0) == k && OwnerOf(c, pm, base, pm[k].1) == k;
      assert forall p :: 0 <= p < base ==> t[p] == TCopies(c, pm, base, ta, tb)[p];
    }
    assert TPart(pm, t, false) == ta;
    assert TPart(pm, t, true) == tb;
  }

  lemma TDoubleCombine(c: Ckt, pm: PairMap, d: Ckt, base: nat, ta: seq<Tern>, tb: seq<Tern>) returns (t: seq<Tern>)
    requires WellFormed(c) && WellFormed(d) && IsDouble(c, pm, d, base) && |c.outputs| >= 1
    requires IsTVal(c.nodes, ta) && IsTVal(c.nodes, tb) && SharesInputs(c, ta, tb)
    ensures IsTVal(d.nodes, t) && TPart(pm, t, false) == ta && TPart(pm, t, true) == tb
    ensures t[base] == Tern(false, true) <==> SurelyDiffer(c, ta, tb)
  {
    var diffs := AllCompared(c, ta, tb);
    var copies := TCopies(c, pm, base, ta, tb);
    var tail := [TApply(Or, diffs)] + diffs;
    t := copies + tail;
    TCopiesParts(c, pm, base, ta, tb, tail);
    assert t[base + 1..] == diffs && t[base] == TApply(Or, diffs);
    TDoubleMeaning(c, pm, d, base, t);
    MiterKnownTrue(c, base, t, ta, tb);
  }

  // ----- known outputs against a correct key -----

  /** The known key bits of `t` are those of `k`. */
  ghost predicate PinsAgree(c: Ckt, t: seq<Tern>, k: seq<bool>)
    requires WellFormed(c) && |t| == |c.nodes| && |k| == |c.keyInputs|
  {
    forall p :: 0 <= p < |k| ==>
      c.keyInputs[p] in c.keyInputs && (!t[c.keyInputs[p]].x ==> t[c.keyInputs[p]].v == k[p])
  }

  /** Every known output that some gate or key drives is the one in `y`. */
  ghost predicate SideMatches(c: Ckt, t: seq<Tern>, y: seq<bool>)
    requires WellFormed(c) && |t| == |c.nodes| && |y| == |c.outputs|
  {
    forall j :: 0 <= j < |y| ==> MatchesAt(c, t, y, j)
  }

  ghost predicate MatchesAt(c: Ckt, t: seq<Tern>, y: seq<bool>, j: nat)
    requires WellFormed(c) && |t| == |c.nodes| && j < |y| == |c.outputs|
  {
    var o := c.outputs[j];
    assert o in c.outputs;
    !c.nodes[o].CktIn? && !t[o].x ==> t[o].v == y[j]
  }

  /** Whatever is known on a side that pins part of key `k` is what `k` gives. */
  lemma PinnedSideMatches(c: Ckt, t: seq<Tern>, k: seq<bool>)
    requires GoodCkt(c) && IsTVal(c.nodes, t) && |k| == |c.keyInputs| && PinsAgree(c, t, k)
    ensures SideMatches(c, t, Outputs(c, k, InOf(c, Shadows(t))))
  {
    var x := InOf(c, Shadows(t));
    var w := Eval(c, k, x);
    forall i | 0 <= i < |c.nodes| && !c.nodes[i].Gate? && !t[i].x
      ensures w[i] == t[i].v
    {
      if c.nodes[i].KeyIn? {
        assert i in c.keyInputs;
        var p :| 0 <= p < |k| && c.keyInputs[p] == i;
        assert KeyOf(c, w)[p] == k[p];
      } else {
        assert i in c.cktInputs;
        var p :| 0 <= p < |x| && c.cktInputs[p] == i;
        assert InOf(c, w)[p] == x[p];
      }
    }
    var rank :| IsRank(c, rank);
    var y := Outputs(c, k, x);
    forall j | 0 <= j < |y|
      ensures MatchesAt(c, t, y, j)
    {
      assert c.outputs[j] in c.outputs;
      KnownIsSound(c, rank, t, w, c.outputs[j]);
    }
  }

  /** Sides that differ cannot both match. */
  lemma NotBothMatch(c: Ckt, ta: seq<Tern>, tb: seq<Tern>, y: seq<bool>)
    requires WellFormed(c) && |ta| == |tb| == |c.nodes| && |y| == |c.outputs|
    requires SharesInputs(c, ta, tb) && SurelyDiffer(c, ta, tb)
    ensures !(SideMatches(c, ta, y) && SideMatches(c, tb, y))
  {
    var j :| 0 <= j < |c.outputs| && DifferAt(c, ta, tb, j);
    assert c.outputs[j] in c.outputs;
    if SideMatches(c, ta, y) {
      assert MatchesAt(c, ta, y, j);
      assert !MatchesAt(c, tb, y, j);
    }
  }
}
