/** What the sort computes for any number of elements and sockets and any choice of sockets whose
    shares are merged, and when that is the sorted array. */
module SortSpec {
  import opened Arithmetic
  import opened FiniteSets
  import opened SortedSeqs
  import opened ParallelMerge
  import opened Pieces
  import opened Chunking
  import opened NodeTrees
  import opened CrossSocket

  ghost predicate SharesFit(n: nat, nd: nat, extra: nat, ns: nat) {
    ns > 0 && ChunkStart(nd, ns) + extra <= n
  }

  /** Every node sorts nd elements, the last one `extra` more. */
  function ShareSize(nd: nat, extra: nat, ns: nat, i: nat): nat {
    if i == ns - 1 then nd + extra else nd
  }

  lemma ShareInside(n: nat, nd: nat, extra: nat, ns: nat, i: nat)
    requires SharesFit(n, nd, extra, ns) && i < ns
    ensures ChunkStart(nd, i) + ShareSize(nd, extra, ns, i) <= n
  {
    ChunkStartGrows(nd, i + 1, ns);
  }

  function Share(a: seq<int>, nd: nat, extra: nat, ns: nat, i: nat): (s: seq<int>)
    requires SharesFit(|a|, nd, extra, ns) && i < ns
    ensures |s| == ShareSize(nd, extra, ns, i)
  {
    ShareInside(|a|, nd, extra, ns, i);
    a[ChunkStart(nd, i)..ChunkStart(nd, i) + ShareSize(nd, extra, ns, i)]
  }

  /** What a node contributes to the cross-socket merge: the first nd keys of its sorted share. */
  function Firsts(a: seq<int>, nd: nat, extra: nat, ns: nat): (ps: Runs)
    requires SharesFit(|a|, nd, extra, ns)
    ensures |ps| == ns && forall i :: 0 <= i < ns ==> ps[i] == Sort(Share(a, nd, extra, ns, i))[..nd]
  {
    seq(ns, i requires 0 <= i < ns => Sort(Share(a, nd, extra, ns, i))[..nd])
  }

  lemma {:induction false} FirstsSize(ps: Runs, nd: nat, j: nat)
    requires j <= |ps| && forall i :: 0 <= i < |ps| ==> |ps[i]| == nd
    ensures Offset(ps, j) == ChunkStart(nd, j)
  {
    if j > 0 { FirstsSize(ps, nd, j - 1); }
  }

  /** The shares of n elements over ns nodes. */
  lemma SharesOfFit(n: nat, ns: nat)
    requires ns > 0 && n / ns > 0
    ensures SharesFit(n, n / ns, n % (n / ns), ns)
    ensures n % ns == 0 ==> n % (n / ns) == 0 && ChunkStart(n / ns, ns) == n
    ensures n % ns != 0 ==> ChunkStart(n / ns, ns) < n
  {
    var nd := n / ns;
    ChunkStartIs(nd, ns);
    SplitByDivision(n, ns);
    RestOfRest(n, ns * nd, nd, ns);
  }

  lemma SplitByDivision(n: nat, ns: nat)
    requires ns > 0
    ensures n == ns * (n / ns) + n % ns
  {}

  /** n and the elements left over by the shares have the same remainder. */
  lemma RestOfRest(n: nat, whole: nat, nd: nat, ns: nat)
    requires nd > 0 && whole == ns * nd && whole <= n
    ensures 0 <= n % nd <= n - whole
  {
    var r := n - whole;
    assert r == (r / nd) * nd + r % nd;
    ModIs(n, nd, ns + r / nd, r % nd);
    RemainderAtMost(r, nd);
  }

  lemma ModIs(n: nat, m: nat, q: nat, r: nat)
    requires m > 0 && r < m && n == q * m + r
    ensures n % m == r
  {
    DivIs(n, m, q);
  }

  /** The runs of the listed nodes, in that order. */
  function Picked(runs: Runs, nodes: seq<nat>): (ps: Runs)
    requires Below(nodes, |runs|)
    ensures |ps| == |nodes| && forall i :: 0 <= i < |nodes| ==> nodes[i] in nodes && ps[i] == runs[nodes[i]]
  {
    seq(|nodes|, i requires 0 <= i < |nodes| => assert nodes[i] in nodes; runs[nodes[i]])
  }

  /** The nodes whose shares are merged, when there are several. */
  ghost predicate Merging(merged: seq<nat>, ns: nat) {
    ns > 1 ==> Distinct(merged) && Below(merged, ns) && |merged| <= ns
  }

  lemma FewerShares(nd: nat, j: nat, ns: nat)
    requires j <= ns
    ensures ChunkStart(nd, j) <= ChunkStart(nd, ns)
    ensures j < ns && nd > 0 ==> ChunkStart(nd, j) < ChunkStart(nd, ns)
  {
    ChunkStartGrows(nd, j, ns);
    if j < ns { ChunkStartGrows(nd, j + 1, ns); }
  }

  /** The outcome of the parallel path over `ns` nodes, of which the tree merges the shares of `merged`. */
  function Outcome(a: seq<int>, ns: nat, merged: seq<nat>): (r: seq<int>)
    requires ns > 0 && |a| / ns > 0 && Merging(merged, ns)
  {
    SharesOfFit(|a|, ns);
    var nd := |a| / ns;
    if ns == 1 then Sort(a)
    else
      FewerShares(nd, |merged|, ns);
      Sort(Flatten(Picked(Firsts(a, nd, |a| % nd, ns), merged))) + a[ChunkStart(nd, |merged|)..]
  }

  /** A socket contributes the nd smallest keys of its share, which has nd keys, and `extra` more in the last one. */
  ghost predicate IsPart(a: seq<int>, nd: nat, extra: nat, ns: nat, x: nat, part: seq<int>) {
    var start, end := x * nd, x * nd + nd + (if x == ns - 1 then extra else 0);
    0 <= start <= end <= |a| && nd <= end - start && part == Sort(a[start..end])[..nd]
  }

  lemma PartIs(a: seq<int>, nd: nat, extra: nat, ns: nat, x: nat, part: seq<int>)
    requires SharesFit(|a|, nd, extra, ns) && x < ns && IsPart(a, nd, extra, ns, x, part)
    ensures Firsts(a, nd, extra, ns)[x] == part
  {
    ChunkStartIs(nd, x);
    ShareIs(a, nd, extra, ns, x, x * nd);
  }

  lemma ShareIs(a: seq<int>, nd: nat, extra: nat, ns: nat, x: nat, start: nat)
    requires SharesFit(|a|, nd, extra, ns) && x < ns && start == ChunkStart(nd, x)
    ensures start + nd + (if x == ns - 1 then extra else 0) <= |a|
    ensures Share(a, nd, extra, ns, x) == a[start..start + nd + (if x == ns - 1 then extra else 0)]
  {
    ShareInside(|a|, nd, extra, ns, x);
  }

  /** The outcome is the merged sockets' parts in order, and then what was there before. */
  lemma OutcomeIs(a: seq<int>, ns: nat, merged: seq<nat>, parts: Runs)
    requires ns > 1 && |a| / ns > 0 && Merging(merged, ns) && |parts| == |merged|
    requires forall j :: 0 <= j < |merged| ==>
               IsPart(a, |a| / ns, |a| % (|a| / ns), ns, merged[j], parts[j])
    ensures 0 <= |merged| * (|a| / ns) <= |a|
    ensures Outcome(a, ns, merged) == Sort(Flatten(parts)) + a[|merged| * (|a| / ns)..]
  {
    var nd := |a| / ns;
    SharesOfFit(|a|, ns);
    FewerShares(nd, |merged|, ns);
    ChunkStartIs(nd, |merged|);
    var firsts := Firsts(a, nd, |a| % nd, ns);
    forall j | 0 <= j < |merged| ensures Picked(firsts, merged)[j] == parts[j] {
      assert merged[j] in merged;
      PartIs(a, nd, |a| % nd, ns, merged[j], parts[j]);
    }
    assert Picked(firsts, merged) == parts;
  }

  /** Arrays up to this length are sorted by one thread: 2 MiB of four-byte keys. */
  const MCTOP_SORT_MIN_LEN_PARALLEL: nat := 2 * 1024 * 1024 / 4

  predicate InParallel(n: nat, nHwcs: nat) {
    n > MCTOP_SORT_MIN_LEN_PARALLEL && nHwcs != 1
  }

  /** On the parallel path every socket has keys. */
  ghost predicate Sortable(n: nat, ns: nat, merged: seq<nat>, nHwcs: nat) {
    InParallel(n, nHwcs) ==> ns > 0 && n / ns > 0 && Merging(merged, ns)
  }

  /** What the sort leaves in the array: short arrays and single contexts are sorted by one thread. */
  function SortResult(a: seq<int>, ns: nat, merged: seq<nat>, nHwcs: nat): (r: seq<int>)
    requires Sortable(|a|, ns, merged, nHwcs)
  {
    if InParallel(|a|, nHwcs) then Outcome(a, ns, merged) else Sort(a)
  }

  /** Up to 524288 keys, or with a single context, one thread sorts the array. */
  lemma ShortIsSorted(a: seq<int>, ns: nat, merged: seq<nat>, nHwcs: nat)
    requires |a| <= 524288 || nHwcs == 1
    ensures Sortable(|a|, ns, merged, nHwcs) && SortResult(a, ns, merged, nHwcs) == Sort(a)
  {}

  /** Otherwise the nodes do. */
  lemma LongIsShared(a: seq<int>, ns: nat, merged: seq<nat>, nHwcs: nat)
    requires |a| > 524288 && nHwcs != 1 && Sortable(|a|, ns, merged, nHwcs)
    ensures ns > 0 && |a| / ns > 0 && Merging(merged, ns) && SortResult(a, ns, merged, nHwcs) == Outcome(a, ns, merged)
  {}

  // ------------------------------------------------------- when the outcome is sorted

  lemma SortedWhole(s: seq<int>, n: nat)
    requires |s| == n
    ensures SameMultiset(Sort(s)[..n], s)
  {
    assert Sort(s)[..n] == Sort(s);
  }

  ghost predicate Stretch(fs: Runs, a: seq<int>, nd: nat, i: nat) {
    i < |fs| && ChunkStart(nd, i + 1) <= |a| && SameMultiset(fs[i], a[ChunkStart(nd, i)..ChunkStart(nd, i + 1)])
  }

  lemma WholeShare(a: seq<int>, nd: nat, ns: nat, i: nat)
    requires SharesFit(|a|, nd, 0, ns) && i < ns
    ensures Stretch(Firsts(a, nd, 0, ns), a, nd, i)
  {
    ShareInside(|a|, nd, 0, ns, i);
    SortedWhole(Share(a, nd, 0, ns, i), nd);
  }

  lemma TakeMore(a: seq<int>, s: nat, e: nat)
    requires s <= e <= |a|
    ensures a[..s] + a[s..e] == a[..e]
  {}

  lemma {:induction false} WholeShares(fs: Runs, a: seq<int>, nd: nat, j: nat)
    requires j <= |fs| && forall i :: 0 <= i < j ==> Stretch(fs, a, nd, i)
    ensures ChunkStart(nd, j) <= |a| && SameMultiset(Prefix(fs, j), a[..ChunkStart(nd, j)])
  {
    if j > 0 {
      WholeShares(fs, a, nd, j - 1);
      assert Stretch(fs, a, nd, j - 1);
      var s, e := ChunkStart(nd, j - 1), ChunkStart(nd, j);
      AppendBoth(Prefix(fs, j - 1), a[..s], fs[j - 1], a[s..e]);
      TakeMore(a, s, e);
    }
  }

  lemma SortOfPermutation(f: seq<int>, a: seq<int>)
    requires SameMultiset(f, a[..|a|])
    ensures Sort(f) + a[|a|..] == Sort(a)
  {
    assert a[..|a|] == a && a[|a|..] == [];
    SortedUnique(Sort(f), Sort(a));
  }

  /** All nodes are merged, and have as many elements each. */
  predicate Whole(n: nat, ns: nat, merged: seq<nat>)
    requires ns > 0
  {
    ns == 1 || (|merged| == ns && n % ns == 0)
  }

  /** Then the array ends up sorted. */
  lemma OutcomeSorts(a: seq<int>, ns: nat, merged: seq<nat>)
    requires ns > 0 && |a| / ns > 0 && Merging(merged, ns) && Whole(|a|, ns, merged)
    ensures Outcome(a, ns, merged) == Sort(a)
  {
    SharesOfFit(|a|, ns);
    var nd := |a| / ns;
    if ns > 1 {
      var fs := Firsts(a, nd, 0, ns);
      forall i | 0 <= i < ns ensures Stretch(fs, a, nd, i) { WholeShare(a, nd, ns, i); }
      WholeShares(fs, a, nd, ns);
      AllNodesKeys(fs, merged);
      PickedKeys(fs, merged);
      SortOfPermutation(Flatten(Picked(fs, merged)), a);
    }
  }

  /** n keys, the largest first. */
  function Descending(n: nat): (s: seq<int>)
    ensures |s| == n && forall i :: 0 <= i < n ==> s[i] == n - i
  {
    seq(n, i => n - i)
  }

  lemma LastIsLargest(s: seq<int>, x: int)
    requires s != [] && x in s
    ensures x <= Sort(s)[|s| - 1]
  {
    LastOfSorted(s, Sort(s), x);
  }

  lemma LastOfSorted(s: seq<int>, r: seq<int>, x: int)
    requires Sorted(r) && multiset(r) == multiset(s) && |r| == |s| && x in s
    ensures s != [] && x <= r[|s| - 1]
  {
    assert x in multiset(s) && x in multiset(r) && x in r;
    LastIsTop(r, r[|r| - 1]);
  }

  lemma TailRemains(front: seq<int>, a: seq<int>, r: seq<int>)
    requires |front| < |a| && r == front + a[|front|..]
    ensures KeepsLast(a, r)
  {
    assert r[|a| - 1] == a[|front|..][|a| - 1 - |front|];
  }

  lemma PickedSize(fs: Runs, merged: seq<nat>, nd: nat)
    requires Below(merged, |fs|) && forall i :: 0 <= i < |fs| ==> |fs[i]| == nd
    ensures |Flatten(Picked(fs, merged))| == ChunkStart(nd, |merged|)
  {
    FirstsSize(Picked(fs, merged), nd, |merged|);
  }

  ghost predicate KeepsLast(a: seq<int>, r: seq<int>) {
    |r| == |a| > 0 && r[|a| - 1] == a[|a| - 1]
  }

  /** Otherwise the end of the array stays as it was. */
  lemma LastRemains(a: seq<int>, ns: nat, merged: seq<nat>)
    requires ns > 0 && |a| / ns > 0 && Merging(merged, ns) && !Whole(|a|, ns, merged)
    ensures KeepsLast(a, Outcome(a, ns, merged))
  {
    var nd := |a| / ns;
    SharesOfFit(|a|, ns);
    FewerShares(nd, |merged|, ns);
    var fs := Firsts(a, nd, |a| % nd, ns);
    PickedSize(fs, merged, nd);
    TailRemains(Sort(Flatten(Picked(fs, merged))), a, Outcome(a, ns, merged));
  }

  /** In a descending array the smallest key then remains last. */
  lemma OutcomeCanFail(n: nat, ns: nat, merged: seq<nat>)
    requires ns > 0 && n / ns > 0 && Merging(merged, ns) && !Whole(n, ns, merged)
    ensures Outcome(Descending(n), ns, merged) != Sort(Descending(n))
  {
    var a := Descending(n);
    assert a[0] in a;
    LastIsLargest(a, a[0]);
    LastRemains(a, ns, merged);
    AtLeastTwo(n, ns);
  }

  lemma AtLeastTwo(n: nat, ns: nat)
    requires ns > 1 && n / ns > 0
    ensures n >= 2
  {
    SplitByDivision(n, ns);
    ProductLe(1, n / ns, ns);
  }

  /** One key too many for two sockets: the last of 524289 keys is in no share and stays last. */
  lemma OneKeyTooMany(nHwcs: nat)
    requires nHwcs != 1
    ensures SortResult(Descending(524289), 2, [0, 1], nHwcs) != Sort(Descending(524289))
  {
    OutcomeCanFail(524289, 2, [0, 1]);
  }

  /** As many keys for each of three sockets, but a tree that merges two: the last third stays as it was. */
  lemma OneSocketTooMany(nHwcs: nat)
    requires nHwcs != 1
    ensures 3 * 174763 == 524289 && SortResult(Descending(524289), 3, [0, 1], nHwcs) != Sort(Descending(524289))
  {
    OutcomeCanFail(524289, 3, [0, 1]);
  }

  /** The sort is right for every array of a length exactly when one thread sorts it, or one node,
      or the tree merges all nodes and their number divides the length. */
  lemma SortsExactly(n: nat, ns: nat, merged: seq<nat>, nHwcs: nat)
    requires Sortable(n, ns, merged, nHwcs)
    ensures (forall a :: |a| == n ==> SortResult(a, ns, merged, nHwcs) == Sort(a))
       <==> n <= 524288 || nHwcs == 1 || ns == 1 || (|merged| == ns && n % ns == 0)
  {
    if InParallel(n, nHwcs) {
      if Whole(n, ns, merged) {
        forall a: seq<int> | |a| == n ensures SortResult(a, ns, merged, nHwcs) == Sort(a) {
          OutcomeSorts(a, ns, merged);
        }
      } else {
        OutcomeCanFail(n, ns, merged);
        assert SortResult(Descending(n), ns, merged, nHwcs) != Sort(Descending(n));
      }
    }
  }

  // --------------------------------------------------- all nodes, whatever their order

  /** 0, 1, ..., n - 1. */
  function Numbers(n: nat): (s: seq<nat>)
    ensures |s| == n && forall i :: 0 <= i < n ==> s[i] == i
  {
    if n == 0 then [] else Numbers(n - 1) + [n - 1]
  }

  lemma {:induction false} DistinctCount(s: seq<nat>, x: nat)
    requires Distinct(s)
    ensures multiset(s)[x] <= 1
  {
    if s != [] {
      var k := |s| - 1;
      DistinctCount(s[..k], x);
      assert s == s[..k] + [s[k]];
      if s[k] == x { assert x !in s[..k]; }
    }
  }

  /** n distinct numbers below n are all of them. */
  lemma AllNumbers(s: seq<nat>, n: nat)
    requires Distinct(s) && Below(s, n) && |s| == n
    ensures multiset(s) == multiset(Numbers(n))
  {
    var t: seq<nat> := Numbers(n);
    DistinctSet(s);
    DistinctSet(t);
    forall x | x in AsSet(s) ensures x in AsSet(t) { assert t[x] == x; }
    SubsetSize(AsSet(s), AsSet(t));
    forall x: nat ensures multiset(s)[x] == multiset(t)[x] {
      DistinctCount(s, x);
      DistinctCount(t, x);
      assert x in s <==> x in AsSet(s);
      assert x in t <==> x in AsSet(t);
      assert x in s <==> x in multiset(s);
      assert x in t <==> x in multiset(t);
    }
  }

  lemma NumberedStep(runs: Runs, n: nat)
    requires n < |runs| && Below(Numbers(n), |runs|) && KeysOf(runs, Numbers(n)) == multiset(Prefix(runs, n))
    ensures Below(Numbers(n + 1), |runs|) && KeysOf(runs, Numbers(n + 1)) == multiset(Prefix(runs, n + 1))
  {
    KeysOfAppend(runs, Numbers(n), n);
    AppendKeys(Prefix(runs, n), runs[n]);
  }

  lemma AppendKeys(s: seq<int>, t: seq<int>)
    ensures multiset(s + t) == multiset(s) + multiset(t)
  {}

  lemma {:induction false} NumberedKeys(runs: Runs, n: nat)
    requires n <= |runs|
    ensures Below(Numbers(n), |runs|) && KeysOf(runs, Numbers(n)) == multiset(Prefix(runs, n))
  {
    if n > 0 {
      NumberedKeys(runs, n - 1);
      NumberedStep(runs, n - 1);
    }
  }

  /** A level's nodes hold the runs picked by it. */
  lemma {:induction false} PickedPrefix(runs: Runs, nodes: seq<nat>, ps: Runs, j: nat)
    requires Below(nodes, |runs|) && ps == Picked(runs, nodes) && j <= |nodes|
    ensures Below(nodes[..j], |runs|) && KeysOf(runs, nodes[..j]) == multiset(Prefix(ps, j))
  {
    if j > 0 {
      PickedPrefix(runs, nodes, ps, j - 1);
      assert nodes[j - 1] in nodes && nodes[..j] == nodes[..j - 1] + [nodes[j - 1]];
      KeysOfAppend(runs, nodes[..j - 1], nodes[j - 1]);
      AppendKeys(Prefix(ps, j - 1), ps[j - 1]);
    }
  }

  lemma PickedKeys(runs: Runs, nodes: seq<nat>)
    requires Below(nodes, |runs|)
    ensures KeysOf(runs, nodes) == multiset(Flatten(Picked(runs, nodes)))
  {
    PickedPrefix(runs, nodes, Picked(runs, nodes), |nodes|);
    assert nodes[..|nodes|] == nodes;
  }

  /** The nodes of a full level hold all runs. */
  lemma AllNodesKeys(runs: Runs, s: seq<nat>)
    requires Distinct(s) && Below(s, |runs|) && |s| == |runs|
    ensures KeysOf(runs, s) == multiset(Flatten(runs))
  {
    AllNumbers(s, |runs|);
    NumberedKeys(runs, |runs|);
    KeysOfOrder(runs, s, Numbers(|runs|));
  }
}
