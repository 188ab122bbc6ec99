/**
 What a gate becomes when one fanin has a known value: a fanin that does not
 matter is dropped, a single remaining fanin makes a buffer or an inverter, and a
 controlling value fixes the gate's output.
 */
module GateAlgebra {
  import opened Cnf
  import opened Netlist

  /** `remove_input`: the first occurrence goes. */
  function Remove(s: seq<nat>, x: nat): seq<nat> {
    if s == [] then [] else if s[0] == x then s[1..] else [s[0]] + Remove(s[1..], x)
  }

  lemma {:induction false} RemoveShape(s: seq<nat>, x: nat)
    requires NoDup(s) && x in s
    ensures |Remove(s, x)| == |s| - 1 && NoDup(Remove(s, x))
    ensures forall y :: y in Remove(s, x) <==> y in s && y != x
  {
    var t := s[1..];
    assert s == [s[0]] + t;
    assert NoDup(t) by {
      forall i, j | 0 <= i < j < |t| ensures t[i] != t[j] {
        assert s[i + 1] != s[j + 1];
      }
    }
    if s[0] == x {
      forall y | y in t ensures y != x {
        var i :| 0 <= i < |t| && t[i] == y;
        assert s[i + 1] == y;
      }
    } else {
      RemoveShape(t, x);
      var r := Remove(t, x);
      forall y | y in t ensures y != s[0] {
        var i :| 0 <= i < |t| && t[i] == y;
        assert s[i + 1] == y;
      }
      assert s[0] !in r;
      NoDupCons(s[0], r);
    }
  }

  lemma NoDupCons(y: nat, r: seq<nat>)
    requires NoDup(r) && y !in r
    ensures NoDup([y] + r)
  {
    var s := [y] + r;
    forall i, j | 0 <= i < j < |s| ensures s[i] != s[j] {
      assert s[j] == r[j - 1];
      assert i > 0 ==> s[i] == r[i - 1];
    }
  }

  /**
   The fanin counts that constant propagation expects: no multiplexer, two fanins or more but for
   inverters and buffers.
   */
  predicate PropArity(f: Func, n: nat) {
    match f
    case And | Nand | Or | Nor => n >= 2
    case Xor | Xnor => n == 2
    case Not | Buf => n == 1
    case Mux => false
  }

  /** The output that a known fanin fixes, if it does. */
  function Controlled(f: Func, value: bool): bool {
    match f
    case And | Nand => !value
    case Or | Nor => value
    case Not | Buf => true
    case _ => false
  }

  /** The fixed output. */
  function ControlledTo(f: Func, value: bool): bool {
    match f
    case And => false
    case Nand => true
    case Or => true
    case Nor => false
    case Not => !value
    case _ => value
  }

  /** The function left for the remaining fanins. */
  function Rest(f: Func, value: bool, n: nat): Func {
    match f
    case Xor => if value then Not else Buf
    case Xnor => if value then Buf else Not
    case And | Or => if n == 1 then Buf else f
    case Nand | Nor => if n == 1 then Not else f
    case _ => f
  }

  lemma AllTrueMembers(w: Model, ins: seq<nat>)
    ensures AllTrue(Vals(w, ins)) <==> forall y :: y in ins ==> Bit(w, y)
    ensures AnyTrue(Vals(w, ins)) <==> exists y :: y in ins && Bit(w, y)
  {
    if AllTrue(Vals(w, ins)) {
      forall y | y in ins ensures Bit(w, y) {
        var i :| 0 <= i < |ins| && ins[i] == y;
        assert Vals(w, ins)[i];
      }
    }
    if AnyTrue(Vals(w, ins)) {
      var i :| 0 <= i < |ins| && Vals(w, ins)[i];
      assert ins[i] in ins;
    }
    if y :| y in ins && Bit(w, y) {
      var i :| 0 <= i < |ins| && ins[i] == y;
      assert Vals(w, ins)[i];
    }
  }

  /** A controlling value fixes the output. */
  lemma ControlledValue(f: Func, ins: seq<nat>, x: nat, value: bool, w: Model)
    requires PropArity(f, |ins|) && ArityOk(f, |ins|) && x in ins && Bit(w, x) == value && Controlled(f, value)
    ensures Apply(f, Vals(w, ins)) == ControlledTo(f, value)
  {
    AllTrueMembers(w, ins);
  }

  /** Any other value leaves a gate over the remaining fanins. */
  lemma RestValue(f: Func, ins: seq<nat>, x: nat, value: bool, w: Model)
    requires PropArity(f, |ins|) && ArityOk(f, |ins|) && NoDup(ins) && x in ins && Bit(w, x) == value
    requires !Controlled(f, value)
    ensures var ins' := Remove(ins, x); var f' := Rest(f, value, |ins'|);
      PropArity(f', |ins'|) && ArityOk(f', |ins'|) && Apply(f', Vals(w, ins')) == Apply(f, Vals(w, ins))
  {
    var ins' := Remove(ins, x);
    RemoveShape(ins, x);
    AllTrueMembers(w, ins);
    AllTrueMembers(w, ins');
    if |ins'| == 1 {
      assert ins'[0] in ins';
      assert forall y :: y in ins' ==> y == ins'[0];
    }
    if f == Xor || f == Xnor {
      assert ins[0] in ins && ins[1] in ins && ins[0] != ins[1];
      assert ins == [ins[0], ins[1]];
      if x == ins[0] {
        assert ins'[0] == ins[1];
      } else {
        assert ins'[0] == ins[0];
      }
    }
  }
}
