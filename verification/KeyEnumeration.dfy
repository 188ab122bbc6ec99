/**
 The top-level attack: find a key, then block it and extract more.
 */
module KeyEnumeration {
  import opened Netlist
  import opened CktCompiler
  import opened ClauseLists
  import opened Recording
  import opened AttackState
  import opened Attack
  import opened DoubleCkt
  import Simulator

  // ----- the whole attack -----

  /**
   `solve` in `sld.cpp`: attack, then block and extract up to `moreKeys` keys.
   Every reported key is correct, no key is reported twice, and if fewer keys
   than asked for are reported then they are all the correct keys there are.
   */
  method FindKeys(c: Ckt, s: Ckt, moreKeys: int, random: nat -> seq<bool>, ghost goal: seq<bool>)
    returns (dumped: seq<KeyMap>, ghost ks: seq<seq<bool>>)
    requires Attackable(c, s) && NoKeyOutput(c) && CorrectKey(c, s, goal)
    requires forall i :: |random(i)| == |c.cktInputs|
    ensures |dumped| == |ks| >= 1 && Reported(c, s, dumped, ks)
    ensures forall m :: m in dumped ==> exists k :: CorrectKey(c, s, k) && Holding(m, k)
    ensures |ks| <= (if moreKeys > 1 then moreKeys else 1)
    ensures |ks| < moreKeys ==> forall k :: CorrectKey(c, s, k) ==> k in ks
  {
    hide CorrectKey, WellFormed, Acyclic, NoKeyOutput, OrderedInputs, NoneAdded, CandKnows, CexKnows, FlagsKeys,
      Compiles, RenamesTo, IsDouble, FromOracle, ClauseList.Valid, Simulator.CktEval.Valid, Consistent, Settled,
      PairsFit, Unstopped, Recorded, Holding, Reported, Members;
    var S := new SatAttack(c, s, 1);
    var done, keysFound := S.SolveV0(map[], _ => false, _ => false, [random(0)], goal);
    ghost var k :| S.IsGoal(k) && Holding(keysFound, k);
    dumped, ks := [keysFound], [k];
    ReportedOne(c, s, keysFound, k);
    assert ks[..0] == [];
    var i := 1;
    while i < moreKeys
      invariant S.Valid() && S.ckt == c && S.simckt == s && Settled(c, s, S.iovectors)
      invariant fresh(S) && fresh(S.Scand) && fresh(S.sim.S)
      invariant 1 <= i && i <= (if moreKeys > 1 then moreKeys else 1)
      invariant |dumped| == |ks| == i && Holding(keysFound, ks[i - 1])
      invariant Reported(c, s, dumped, ks) && S.blocked == Members(ks[..i - 1])
    {
      KeyLength(c, s, dumped, ks);
      BlockedSnoc(ks, i);
      var ok;
      ok, keysFound, k := NextKey(S, keysFound, ks[i - 1], random(i));
      if !ok {
        forall k' | CorrectKey(c, s, k') ensures k' in ks {
          assert !S.IsGoal(k');
          InMembers(ks, k');
        }
        ReportedMaps(c, s, dumped, ks);
        return;
      }
      ReportedSnoc(c, s, dumped, ks, keysFound, k);
      dumped, ks := dumped + [keysFound], ks + [k];
      assert ks[..i] == ks[..|ks| - 1];
      i := i + 1;
    }
    ReportedMaps(c, s, dumped, ks);
  }

  /** Blocks the last key found and extracts another one, if there is one. */
  method NextKey(S: SatAttack, keysFound0: KeyMap, ghost k0: seq<bool>, x: seq<bool>)
    returns (ok: bool, keysFound: KeyMap, ghost k: seq<bool>)
    requires S.Valid() && Settled(S.ckt, S.simckt, S.iovectors) && |x| == |S.ckt.cktInputs|
    requires |k0| == |S.ckt.keyInputs| && Holding(keysFound0, k0)
    modifies S`blocked, S.Scand`clauses, S.Scand`model, S.sim.S`model
    ensures S.Valid() && S.blocked == old(S.blocked) + {k0}
    ensures ok ==> S.IsGoal(k) && Holding(keysFound, k)
    ensures !ok ==> forall k' :: !S.IsGoal(k')
  {
    hide CorrectKey, WellFormed, Acyclic, OrderedInputs, NoneAdded, CandKnows, CexKnows, FlagsKeys, Compiles, RenamesTo,
      IsDouble, FromOracle, ClauseList.Valid, Simulator.CktEval.Valid, Consistent, Settled, PairsFit, Holding;
    k := k0;
    S.BlockKey(keysFound0, k0);
    ok, keysFound := S.GetNewKey([x]);
    if ok {
      k :| S.IsGoal(k) && Holding(keysFound, k);
    }
  }

  ghost function Members(ks: seq<seq<bool>>): set<seq<bool>> {
    set k | k in ks
  }

  lemma InMembers(ks: seq<seq<bool>>, k: seq<bool>)
    ensures k in Members(ks) <==> k in ks
  {
  }

  lemma BlockedSnoc(ks: seq<seq<bool>>, i: nat)
    requires |ks| == i >= 1
    ensures Members(ks[..i - 1]) + {ks[i - 1]} == Members(ks)
  {
    assert ks == ks[..i - 1] + [ks[i - 1]];
  }

  /** The keys reported so far: correct, in the maps that were printed, and distinct. */
  ghost predicate Reported(c: Ckt, s: Ckt, dumped: seq<KeyMap>, ks: seq<seq<bool>>)
    requires GoodCkt(c) && GoodCkt(s) && |s.cktInputs| == |c.cktInputs|
  {
    && |dumped| == |ks|
    && (forall i :: 0 <= i < |ks| ==> CorrectKey(c, s, ks[i]) && Holding(dumped[i], ks[i]))
    && (forall i, j :: 0 <= i < j < |ks| ==> ks[i] != ks[j])
  }

  lemma ReportedMaps(c: Ckt, s: Ckt, dumped: seq<KeyMap>, ks: seq<seq<bool>>)
    requires GoodCkt(c) && GoodCkt(s) && |s.cktInputs| == |c.cktInputs| && Reported(c, s, dumped, ks)
    ensures forall m :: m in dumped ==> exists k :: CorrectKey(c, s, k) && Holding(m, k)
  {
    forall m | m in dumped
      ensures exists k :: CorrectKey(c, s, k) && Holding(m, k)
    {
      var i :| 0 <= i < |dumped| && dumped[i] == m;
      assert CorrectKey(c, s, ks[i]) && Holding(m, ks[i]);
    }
  }

  lemma ReportedOne(c: Ckt, s: Ckt, keys: KeyMap, k: seq<bool>)
    requires GoodCkt(c) && GoodCkt(s) && |s.cktInputs| == |c.cktInputs| && CorrectKey(c, s, k) && Holding(keys, k)
    ensures Reported(c, s, [keys], [k]) && Members([]) == {}
  {
  }

  lemma ReportedSnoc(c: Ckt, s: Ckt, dumped: seq<KeyMap>, ks: seq<seq<bool>>, keys: KeyMap, k: seq<bool>)
    requires GoodCkt(c) && GoodCkt(s) && |s.cktInputs| == |c.cktInputs| && Reported(c, s, dumped, ks)
    requires CorrectKey(c, s, k) && Holding(keys, k) && k !in Members(ks)
    ensures Reported(c, s, dumped + [keys], ks + [k])
  {
  }

  lemma KeyLength(c: Ckt, s: Ckt, dumped: seq<KeyMap>, ks: seq<seq<bool>>)
    requires GoodCkt(c) && GoodCkt(s) && |s.cktInputs| == |c.cktInputs| && Reported(c, s, dumped, ks) && |ks| > 0
    ensures |ks[|ks| - 1]| == |c.keyInputs|
  {
    assert CorrectKey(c, s, ks[|ks| - 1]);
  }
}
