/** Sizes of finite sets of numbers. */
module FiniteSets {
  lemma {:induction false} SubsetSize(a: set<nat>, b: set<nat>)
    requires a <= b
    ensures |a| <= |b|
    ensures |a| == |b| ==> a == b
    decreases |b|
  {
    if a != {} {
      var y :| y in a;
      SubsetSize(a - {y}, b - {y});
      assert a == (a - {y}) + {y} && b == (b - {y}) + {y};
    }
  }

  /** The numbers below n. */
  ghost function NumbersBelow(n: nat): (c: set<nat>)
    ensures |c| == n && forall x: nat :: x in c <==> x < n
  {
    if n == 0 then {} else NumbersBelow(n - 1) + {n - 1}
  }

  function AsSet(s: seq<nat>): set<nat> { set x: nat | x in s }

  lemma {:induction false} DistinctSet(s: seq<nat>)
    requires forall p, q :: 0 <= p < q < |s| ==> s[p] != s[q]
    ensures |AsSet(s)| == |s|
  {
    if s != [] {
      var k := |s| - 1;
      DistinctSet(s[..k]);
      assert s[k] !in s[..k];
      assert AsSet(s) == AsSet(s[..k]) + {s[k]};
    }
  }
}
