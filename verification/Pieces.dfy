/** A buffer seen as consecutive sorted pieces, and one merging round over them. */
module Pieces {
  import opened SortedSeqs

  type Runs = seq<seq<int>>

  /** The first j pieces, one after the other. */
  function Prefix(ps: Runs, j: nat): (s: seq<int>)
    requires j <= |ps|
  {
    if j == 0 then [] else Prefix(ps, j - 1) + ps[j - 1]
  }

  function Flatten(ps: Runs): seq<int> { Prefix(ps, |ps|) }

  /** Where piece j starts. */
  function Offset(ps: Runs, j: nat): (n: nat)
    requires j <= |ps|
    ensures n == |Prefix(ps, j)|
  {
    if j == 0 then 0 else Offset(ps, j - 1) + |ps[j - 1]|
  }

  lemma {:induction false} OffsetGrows(ps: Runs, i: nat, j: nat)
    requires i <= j <= |ps|
    ensures Offset(ps, i) <= Offset(ps, j)
  {
    if i < j { OffsetGrows(ps, i, j - 1); }
  }

  lemma {:induction false} PrefixPiece(ps: Runs, i: nat, j: nat)
    requires i < j <= |ps|
    ensures Offset(ps, i) + |ps[i]| <= Offset(ps, j)
    ensures Prefix(ps, j)[Offset(ps, i)..Offset(ps, i) + |ps[i]|] == ps[i]
  {
    if i < j - 1 { PrefixPiece(ps, i, j - 1); }
  }

  /** The piece an index falls into. */
  lemma {:induction false} Locate(ps: Runs, j: nat, k: nat) returns (i: nat)
    requires j <= |ps| && k < Offset(ps, j)
    ensures i < j && Offset(ps, i) <= k < Offset(ps, i) + |ps[i]|
  {
    if k >= Offset(ps, j - 1) { i := j - 1; } else { i := Locate(ps, j - 1, k); }
  }

  ghost predicate AllSorted(ps: Runs) {
    forall i :: 0 <= i < |ps| ==> Sorted(ps[i])
  }

  /** Every piece is long enough for a team of n threads. */
  predicate Wide(ps: Runs, n: nat) {
    n > 0 && forall i :: 0 <= i < |ps| ==> n <= |ps[i]|
  }

  /** One round: neighbours are merged, an odd last piece is carried over. */
  function MergeAdjacent(ps: Runs): (qs: Runs)
    ensures |qs| == (|ps| + 1) / 2
  {
    seq((|ps| + 1) / 2, j requires 0 <= j < (|ps| + 1) / 2 =>
      if 2 * j + 1 < |ps| then Merge(ps[2 * j], ps[2 * j + 1]) else ps[2 * j])
  }

  lemma MergeAdjacentKeeps(ps: Runs, n: nat)
    requires AllSorted(ps) && Wide(ps, n)
    ensures AllSorted(MergeAdjacent(ps)) && Wide(MergeAdjacent(ps), n)
  {
    var qs := MergeAdjacent(ps);
    forall j | 0 <= j < |qs| ensures Sorted(qs[j]) && n <= |qs[j]| {
      if 2 * j + 1 < |ps| { MergeSorted(ps[2 * j], ps[2 * j + 1]); }
    }
  }

  ghost predicate PairedAt(ps: Runs, qs: Runs, i: nat) {
    2 * i + 1 < |ps| && i < |qs| && qs[i] == Merge(ps[2 * i], ps[2 * i + 1])
  }

  /** The first h runs of qs are the merged neighbours of ps. */
  ghost predicate Paired(ps: Runs, qs: Runs, h: nat) {
    h <= |qs| && 2 * h <= |ps| && forall i :: 0 <= i < h ==> PairedAt(ps, qs, i)
  }

  lemma MergeAdjacentPairs(ps: Runs, h: nat)
    requires 2 * h <= |ps|
    ensures Paired(ps, MergeAdjacent(ps), h)
  {
    var qs := MergeAdjacent(ps);
    forall i | 0 <= i < h ensures PairedAt(ps, qs, i) {}
  }

  lemma {:induction false} PairedOffset(ps: Runs, qs: Runs, j: nat)
    requires Paired(ps, qs, j)
    ensures Offset(qs, j) == Offset(ps, 2 * j)
  {
    if j > 0 {
      PairedOffset(ps, qs, j - 1);
      assert PairedAt(ps, qs, j - 1);
      assert Offset(ps, 2 * j) == Offset(ps, 2 * j - 1) + |ps[2 * j - 1]|;
      assert Offset(ps, 2 * j - 1) == Offset(ps, 2 * j - 2) + |ps[2 * j - 2]|;
    }
  }

  /** Appending the merge of two pieces, or the two pieces. */
  lemma AppendMerged(p: seq<int>, q: seq<int>, a: seq<int>, b: seq<int>)
    requires multiset(p) == multiset(q)
    ensures multiset(p + Merge(a, b)) == multiset((q + a) + b)
  {
    MergeMultiset(a, b);
    assert multiset((q + a) + b) == multiset(q) + multiset(a) + multiset(b);
  }

  lemma PairedStep(ps: Runs, qs: Runs, j: nat)
    requires PairedAt(ps, qs, j) && multiset(Prefix(qs, j)) == multiset(Prefix(ps, 2 * j))
    ensures multiset(Prefix(qs, j + 1)) == multiset(Prefix(ps, 2 * j + 2))
  {
    AppendMerged(Prefix(qs, j), Prefix(ps, 2 * j), ps[2 * j], ps[2 * j + 1]);
    PrefixTwo(ps, 2 * j);
  }

  lemma {:induction false} PairedPrefix(ps: Runs, qs: Runs, j: nat)
    requires Paired(ps, qs, j)
    ensures multiset(Prefix(qs, j)) == multiset(Prefix(ps, 2 * j))
  {
    if j > 0 {
      PairedPrefix(ps, qs, j - 1);
      assert PairedAt(ps, qs, j - 1);
      PairedStep(ps, qs, j - 1);
    }
  }

  lemma PrefixTwo(ps: Runs, j: nat)
    requires j + 2 <= |ps|
    ensures Prefix(ps, j + 2) == (Prefix(ps, j) + ps[j]) + ps[j + 1]
  {}

  lemma AppendSame(p: seq<int>, q: seq<int>, a: seq<int>)
    requires multiset(p) == multiset(q)
    ensures multiset(p + a) == multiset(q + a)
  {
    assert multiset(p + a) == multiset(p) + multiset(a);
  }

  lemma OddLast(ps: Runs, h: nat)
    requires |ps| == 2 * h + 1
    ensures |MergeAdjacent(ps)| == h + 1 && MergeAdjacent(ps)[h] == ps[2 * h]
  {}

  /** A round only permutes the keys. */
  lemma MergeAdjacentKeys(ps: Runs, h: nat)
    requires 2 * h <= |ps| <= 2 * h + 1
    ensures multiset(Flatten(MergeAdjacent(ps))) == multiset(Flatten(ps))
    ensures |Flatten(MergeAdjacent(ps))| == |Flatten(ps)|
  {
    MergeAdjacentPairs(ps, h);
    PairedPrefix(ps, MergeAdjacent(ps), h);
    if |ps| == 2 * h + 1 {
      OddLast(ps, h);
      AppendSame(Prefix(MergeAdjacent(ps), h), Prefix(ps, 2 * h), ps[2 * h]);
    }
    SameLength(Flatten(MergeAdjacent(ps)), Flatten(ps));
  }

  lemma SameLength(s: seq<int>, t: seq<int>)
    requires multiset(s) == multiset(t)
    ensures |s| == |t|
  {
    assert |multiset(s)| == |s| && |multiset(t)| == |t|;
  }

  lemma SingleRun(ps: Runs)
    requires |ps| == 1
    ensures Flatten(ps) == ps[0]
  {
    assert Prefix(ps, 1) == Prefix(ps, 0) + ps[0];
  }

  // ---------------------------------------------------------- number of rounds

  function Pow2(n: nat): (p: nat)
    ensures p > 0
  {
    if n == 0 then 1 else 2 * Pow2(n - 1)
  }

  /** How many rounds bring n partitions down to one. */
  function RoundsFor(n: nat): nat {
    if n <= 1 then 0 else 1 + RoundsFor((n + 1) / 2)
  }

  /** The smallest power of two that is at least n is reached by that many doublings. */
  lemma {:induction false} RoundsForIsCeilLog(n: nat)
    ensures n <= Pow2(RoundsFor(n))
    ensures n > 1 ==> Pow2(RoundsFor(n) - 1) < n
  {
    if n > 1 {
      var h := (n + 1) / 2;
      RoundsForIsCeilLog(h);
      assert RoundsFor(n) == 1 + RoundsFor(h);
      assert h > 1 ==> Pow2(RoundsFor(h)) == 2 * Pow2(RoundsFor(h) - 1);
    }
  }
}
