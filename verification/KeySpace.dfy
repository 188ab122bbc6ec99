/**
 The finite set of all keys of a given length, with its size.
 */
module KeySpace {
  function Pow2(n: nat): (p: nat)
    ensures p >= 1
  {
    if n == 0 then 1 else 2 * Pow2(n - 1)
  }

  ghost function AllKeys(n: nat): set<seq<bool>> {
    if n == 0 then {[]} else Lengthen(AllKeys(n - 1))
  }

  ghost function Lengthen(s: set<seq<bool>>): set<seq<bool>> {
    ExtendKeys(s, false) + ExtendKeys(s, true)
  }

  ghost function ExtendKeys(s: set<seq<bool>>, b: bool): set<seq<bool>> {
    set k | k in s :: k + [b]
  }

  lemma ExtendShape(s: set<seq<bool>>, b: bool)
    ensures forall k :: k in ExtendKeys(s, b) ==> |k| > 0 && k[|k| - 1] == b && k[..|k| - 1] in s
  {
    assert forall k :: k in s ==> (k + [b])[..|k|] == k;
  }

  lemma {:induction false} AllKeysComplete(n: nat, k: seq<bool>)
    ensures k in AllKeys(n) <==> |k| == n
  {
    if n > 0 {
      if |k| == n {
        AllKeysComplete(n - 1, k[..n - 1]);
        assert k == k[..n - 1] + [k[n - 1]];
        if k[n - 1] {
          assert k in ExtendKeys(AllKeys(n - 1), true);
        } else {
          assert k in ExtendKeys(AllKeys(n - 1), false);
        }
      }
      if k in AllKeys(n) {
        ExtendShape(AllKeys(n - 1), false);
        ExtendShape(AllKeys(n - 1), true);
        AllKeysComplete(n - 1, k[..|k| - 1]);
      }
    }
  }

  lemma {:induction false} ExtendSize(s: set<seq<bool>>, b: bool)
    ensures |ExtendKeys(s, b)| == |s|
  {
    if s != {} {
      var k :| k in s;
      ExtendSize(s - {k}, b);
      assert k + [b] !in ExtendKeys(s - {k}, b) by {
        forall k' | k' in s - {k} ensures k' + [b] != k + [b] {
          assert (k' + [b])[..|k'|] == k' && (k + [b])[..|k|] == k;
        }
      }
      assert ExtendKeys(s, b) == ExtendKeys(s - {k}, b) + {k + [b]};
    }
  }

  lemma LengthenSize(s: set<seq<bool>>)
    ensures |Lengthen(s)| == 2 * |s|
  {
    ExtendSize(s, false);
    ExtendSize(s, true);
    ExtendShape(s, false);
    ExtendShape(s, true);
    DisjointSize(ExtendKeys(s, false), ExtendKeys(s, true));
  }

  lemma {:induction false} AllKeysSize(n: nat)
    ensures |AllKeys(n)| == Pow2(n)
  {
    if n > 0 {
      AllKeysSize(n - 1);
      var s := AllKeys(n - 1);
      LengthenSize(s);
    } else {
      assert AllKeys(n) == {[]};
      assert |AllKeys(n)| == 1;
    }
  }

  lemma DisjointSize(a: set<seq<bool>>, b: set<seq<bool>>)
    requires forall k :: k in a ==> |k| > 0 && !k[|k| - 1]
    requires forall k :: k in b ==> |k| > 0 && k[|k| - 1]
    ensures |a + b| == |a| + |b|
  {
    assert a !! b;
  }

  // ----- sizes of sets -----

  lemma SubsetSize<T>(a: set<T>, b: set<T>)
    requires a <= b
    ensures |a| <= |b|
  {
    assert b == a + (b - a);
  }

  lemma StrictSubset<T>(a: set<T>, b: set<T>, x: T)
    requires a <= b && x in b && x !in a
    ensures |a| < |b|
  {
    assert a <= b - {x};
    SubsetSize(a, b - {x});
  }
}
