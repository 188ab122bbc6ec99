/**
 `findFixedKeys`: the key bits that the recorded pairs alone determine.
 */
module FixedKeys {
  import opened Cnf
  import opened Netlist
  import opened CktCompiler
  import opened Rewriting
  import opened ClauseLists
  import opened Recording
  import opened AttackState
  import opened Attack
  import SatSolver

  // ----- key bits that the recorded pairs force -----

  /** The candidate array alone, as `findFixedKeys` fills it. */
  method FixCkt(c: Ckt, clm: seq<Lit>, size: nat, x: seq<bool>, y: seq<bool>, ghost w: Model) returns (cand: Partial)
    requires WellFormed(c) && IsVal(c, w) && InOf(c, w) == x && OutOf(c, w) == y && size == |c.nodes| + 2
    requires |clm| == |c.nodes| && forall i :: 0 <= i < |clm| ==> clm[i] == MkLit(i + 1)
    ensures |cand| == size
    ensures IsView(c, CandLoc(|c.nodes|), |cand|) && FixesPair(c, CandLoc(|c.nodes|), cand, w)
  {
    ghost var cnd := CandLoc(|c.nodes|);
    CandLocView(c);
    cand := seq(size, _ => None);
    FixStart(c, cnd, cand, w);
    for i := 0 to |x|
      invariant |cand| == size && FixedSoFar(c, cnd, cand, w, c.cktInputs[..i])
    {
      ghost var n := c.cktInputs[i];
      assert n in c.cktInputs && InOf(c, w)[i] == w[n];
      FixStep(c, cnd, cand, w, c.cktInputs[..i], n);
      assert c.cktInputs[..i + 1] == c.cktInputs[..i] + [n];
      cand := cand[clm[c.cktInputs[i]].v := Some(x[i])];
    }
    assert c.cktInputs[..|x|] == c.cktInputs;
    assert c.cktInputs + c.outputs[..0] == c.cktInputs;
    for i := 0 to |y|
      invariant |cand| == size && FixedSoFar(c, cnd, cand, w, c.cktInputs + c.outputs[..i])
    {
      ghost var n := c.outputs[i];
      assert n in c.outputs && OutOf(c, w)[i] == w[n];
      FixStep(c, cnd, cand, w, c.cktInputs + c.outputs[..i], n);
      assert c.cktInputs + c.outputs[..i + 1] == c.cktInputs + c.outputs[..i] + [n];
      cand := cand[clm[c.outputs[i]].v := Some(y[i])];
    }
    assert c.outputs[..|y|] == c.outputs;
    FixEnd(c, cnd, cand, w);
  }

  /** Every consistent key has bit `b` at position `i`. */
  ghost predicate Forced(c: Ckt, io: Pairs, i: nat, b: bool)
    requires GoodCkt(c) && PairsFit(c, io)
  {
    i < |c.keyInputs| && forall k :: Consistent(c, io, k) ==> k[i] == b
  }

  /** A unit assumption against key bit `i` is refuted iff the bit is forced the other way. */
  lemma AskBit(c: Ckt, io: Pairs, n: nat, cs: seq<Clause>, i: nat, b: bool, a: seq<Lit>)
    requires GoodCkt(c) && PairsFit(c, io) && CandKnows(c, io, {}, n, cs) && i < |c.keyInputs|
    requires a == [LitFor(c.keyInputs[i] + 1, !b)]
    ensures (exists m :: IsModel(m, n, cs, a)) <==> !Forced(c, io, i, b)
  {
    forall m
      ensures AllHold(m, a) <==> KeyOf(c, NodeBits(c, m))[i] == !b
    {
      assert c.keyInputs[i] in c.keyInputs;
      assert a[0] in a;
    }
    if m :| IsModel(m, n, cs, a) {
      assert CandSound(c, io, {}, m);
    }
    if !Forced(c, io, i, b) {
      var k :| Consistent(c, io, k) && k[i] != b;
      var x := seq(|c.cktInputs|, _ => false);
      assert Fits(c, k, x);
      var m :| CandModel(c, n, cs, k, x, m);
      assert IsModel(m, n, cs, a);
    }
  }

  /** Adding a forced bit as a clause changes nothing. */
  lemma AddForced(c: Ckt, io: Pairs, n: nat, cs: seq<Clause>, i: nat, b: bool)
    requires GoodCkt(c) && PairsFit(c, io) && CandKnows(c, io, {}, n, cs) && Forced(c, io, i, b)
    ensures c.keyInputs[i] + 1 < n && CandKnows(c, io, {}, n, cs + [[LitFor(c.keyInputs[i] + 1, b)]])
  {
    var l := LitFor(c.keyInputs[i] + 1, b);
    var cs' := cs + [[l]];
    assert c.keyInputs[i] in c.keyInputs;
    forall m
      ensures Sat(m, cs') <==> Sat(m, cs) && KeyOf(c, NodeBits(c, m))[i] == b
    {
      SatAppend(m, cs, [[l]]);
      assert l in [l] && [l] in [[l]];
      assert Sat(m, [[l]]) <==> Holds(m, l);
    }
    forall k, x | Fits(c, k, x) && Consistent(c, io, k)
      ensures exists m :: CandModel(c, n, cs', k, x, m)
    {
      var m :| CandModel(c, n, cs, k, x, m);
      assert CandModel(c, n, cs', k, x, m);
    }
  }

  /**
   `findFixedKeys`: rebuilds a solver from the recorded pairs alone and tests
   each key bit.  The bits reported are exactly the forced ones.
   */
  method FindFixedKeys(c: Ckt, lmap: seq<Lit>, io: Pairs, ghost k0: seq<bool>) returns (backbones: KeyMap)
    requires GoodCkt(c) && Compilable(c) && NoneAdded(c) && NoKeyOutput(c)
    requires PairsFit(c, io) && Consistent(c, io, k0)
    requires |lmap| >= |c.nodes| && forall i :: 0 <= i < |lmap| ==> lmap[i] == MkLit(i + 1)
    ensures io == [] ==> backbones == map[]
    ensures io != [] ==> forall i: nat, b ::
      (i in backbones && backbones[i] == b) <==> Forced(c, io, i, b)
  {
    backbones := map[];
    if |io| == 0 {
      return;
    }
    var Sckt, cktCl, cktmap, flags := SetUpCand(c);
    for j := 0 to |io|
      invariant Sckt.Valid() && cktCl.Valid() && Sckt.numVars >= |c.nodes| + 2
      invariant Compiles(c, [], cktCl.Contents(), false)
      invariant PairsFit(c, io[..j]) && CandKnows(c, io[..j], {}, Sckt.numVars, Sckt.clauses)
    {
      RecordAgain(c, cktCl, cktmap, flags, Sckt, io[..j], io[j].0, io[j].1, k0, io);
      assert io[..j + 1] == io[..j] + [io[j]];
    }
    assert io[..|io|] == io;
    backbones := TestBits(c, lmap, Sckt, io, k0);
  }

  method RecordAgain(
    c: Ckt, cl: ClauseList, clm: seq<Lit>, flags: seq<bool>, S: SatSolver.Solver,
    ghost done: Pairs, x: seq<bool>, y: seq<bool>, ghost k0: seq<bool>, ghost io: Pairs)
    requires GoodCkt(c) && NoKeyOutput(c) && PairsFit(c, io) && Consistent(c, io, k0) && (x, y) in io
    requires |clm| == |c.nodes| && forall i :: 0 <= i < |clm| ==> clm[i] == MkLit(i + 1)
    requires |flags| == |c.nodes| + 2 && FlagsKeys(c, CandLoc(|c.nodes|), flags)
    requires cl.Valid() && Compiles(c, [], cl.Contents(), false) && S.Valid() && S.numVars >= |c.nodes| + 2
    requires PairsFit(c, done) && CandKnows(c, done, {}, S.numVars, S.clauses)
    modifies S`numVars, S`clauses
    ensures S.Valid() && S.numVars >= |c.nodes| + 2 && PairsFit(c, done + [(x, y)])
    ensures CandKnows(c, done + [(x, y)], {}, S.numVars, S.clauses)
  {
    ghost var w := Eval(c, k0, x);
    assert OutOf(c, w) == y by {
      assert Reproduces(c, k0, x, y);
    }
    ghost var n, cs := S.numVars, S.clauses;
    hide CandKnows, Compiles, IsVal, FixesPair, IsView, Restricts, FlagsKeys, RenamesTo, InOf, OutOf, PairsFit,
      NoKeyOutput, WellFormed, Acyclic, Consistent;
    var values := FixCkt(c, clm, |c.nodes| + 2, x, y, w);
    NoRename(c);
    var cnt := RecordPair(c, cl, None, values, flags, S, CandLoc(|c.nodes|), w);
    CandRecords(c, done, {}, w, n, cs, S.numVars, S.clauses);
  }

  method TestBits(c: Ckt, lmap: seq<Lit>, S: SatSolver.Solver, ghost io: Pairs, ghost k0: seq<bool>)
    returns (backbones: KeyMap)
    requires GoodCkt(c) && PairsFit(c, io) && Consistent(c, io, k0)
    requires |lmap| >= |c.nodes| && forall i :: 0 <= i < |lmap| ==> lmap[i] == MkLit(i + 1)
    requires S.Valid() && CandKnows(c, io, {}, S.numVars, S.clauses)
    modifies S
    ensures BackbonesTo(c, io, |c.keyInputs|, backbones)
    ensures S.clauses == old(S.clauses) + UnitsTo(c, backbones, |c.keyInputs|)
  {
    hide CandKnows, IsModel, KeyOf, WellFormed, Acyclic, Consistent, PairsFit, Forced, UnitsTo;
    var result := S.Solve([]);
    ghost var k := CandidateKey(c, io, {}, S.numVars, S.clauses, k0, result, S.model);
    var keys := ReadKeyLits(c, lmap, S);
    backbones := map[];
    UnitsNone(c);
    for i := 0 to |c.keyInputs|
      invariant S.Valid() && CandKnows(c, io, {}, S.numVars, S.clauses)
      invariant BackbonesTo(c, io, i, backbones) && S.clauses == old(S.clauses) + UnitsTo(c, backbones, i)
    {
      var against := [Neg(keys[i])];
      UnitsStep(c, backbones, i, keys[i], !keys[i].neg);
      AskBit(c, io, S.numVars, S.clauses, i, k[i], against);
      BackbonesStep(c, io, i, backbones, k);
      var sat := S.Solve(against);
      if !sat {
        AddForced(c, io, S.numVars, S.clauses, i, k[i]);
        backbones := backbones[i := !keys[i].neg];
        S.AddClause([keys[i]]);
      }
    }
  }

  /** The recorded bits as clauses of one literal. */
  function UnitsTo(c: Ckt, backbones: KeyMap, n: nat): seq<Clause>
    requires n <= |c.keyInputs|
  {
    if n == 0 then []
    else
      UnitsTo(c, backbones, n - 1) + UnitAt(c, backbones, n - 1)
  }

  function UnitAt(c: Ckt, backbones: KeyMap, j: nat): seq<Clause>
    requires j < |c.keyInputs|
  {
    if j in backbones then [[LitFor(c.keyInputs[j] + 1, backbones[j])]] else []
  }

  lemma UnitsNone(c: Ckt)
    ensures UnitsTo(c, map[], 0) == []
  {
  }

  lemma UnitsStep(c: Ckt, b: KeyMap, i: nat, l: Lit, v: bool)
    requires i < |c.keyInputs| && (forall j :: j in b ==> 0 <= j < i) && l == LitFor(c.keyInputs[i] + 1, v)
    ensures UnitsTo(c, b, i + 1) == UnitsTo(c, b, i)
    ensures UnitsTo(c, b[i := v], i + 1) == UnitsTo(c, b, i) + [[l]]
  {
    assert UnitsTo(c, b, i) + [] == UnitsTo(c, b, i);
    UnitsSame(c, b, b[i := v], i);
  }

  lemma {:induction false} UnitsSame(c: Ckt, b: KeyMap, b': KeyMap, n: nat)
    requires n <= |c.keyInputs| && forall j :: 0 <= j < n ==> (j in b <==> j in b') && (j in b ==> b[j] == b'[j])
    ensures UnitsTo(c, b', n) == UnitsTo(c, b, n)
  {
    if n > 0 {
      UnitsSame(c, b, b', n - 1);
    }
  }

  /** Among the first `n` key bits, exactly the forced ones are recorded. */
  ghost predicate BackbonesTo(c: Ckt, io: Pairs, n: nat, backbones: KeyMap)
    requires GoodCkt(c) && PairsFit(c, io)
  {
    && (forall j :: j in backbones ==> 0 <= j < n && Forced(c, io, j, backbones[j]))
    && (forall j: nat, b :: j < n && Forced(c, io, j, b) ==> j in backbones && backbones[j] == b)
  }

  lemma BackbonesStep(c: Ckt, io: Pairs, i: nat, backbones: KeyMap, k: seq<bool>)
    requires GoodCkt(c) && PairsFit(c, io) && Consistent(c, io, k) && i < |c.keyInputs|
    requires BackbonesTo(c, io, i, backbones)
    ensures Forced(c, io, i, k[i]) ==> BackbonesTo(c, io, i + 1, backbones[i := k[i]])
    ensures !Forced(c, io, i, k[i]) ==> BackbonesTo(c, io, i + 1, backbones)
  {
    forall b
      ensures Forced(c, io, i, b) ==> b == k[i]
    {
      assert Forced(c, io, i, b) ==> k[i] == b;
    }
  }

  /** The key bits of the model as literals that are true in it. */
  method ReadKeyLits(c: Ckt, lmap: seq<Lit>, S: SatSolver.Solver) returns (keys: seq<Lit>)
    requires WellFormed(c) && |lmap| >= |c.nodes| && forall i :: 0 <= i < |lmap| ==> lmap[i] == MkLit(i + 1)
    ensures |keys| == |c.keyInputs|
    ensures forall i :: 0 <= i < |keys| ==> keys[i] == LitFor(c.keyInputs[i] + 1, KeyOf(c, NodeBits(c, S.model))[i])
  {
    keys := [];
    for i := 0 to |c.keyInputs|
      invariant |keys| == i
      invariant forall j :: 0 <= j < i ==> keys[j] == LitFor(c.keyInputs[j] + 1, KeyOf(c, NodeBits(c, S.model))[j])
    {
      assert c.keyInputs[i] in c.keyInputs;
      var l := lmap[c.keyInputs[i]];
      keys := keys + [if S.ModelValue(l) then l else Neg(l)];
    }
  }
}
