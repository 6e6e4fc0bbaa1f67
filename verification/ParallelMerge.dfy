/** The scalar parallel merge: every thread finds its own start and end split of
    two sorted arrays with two binary searches and merges only that slice. The
    searches treat ties differently, so slices can overlap and a slice of `a` can
    have negative length; every store still agrees with the one merged result. */
module ParallelMerge {
  import opened Arithmetic
  import opened SortedSeqs
  import opened Phases

  /** Cutting `a` before i and `b` before j puts nothing larger on the left. */
  ghost predicate IsSplit(a: seq<int>, b: seq<int>, i: int, j: int) {
    && 0 <= i <= |a| && 0 <= j <= |b|
    && (i > 0 && j < |b| ==> a[i - 1] <= b[j])
    && (j > 0 && i < |a| ==> b[j - 1] <= a[i])
  }

  /** The split that takes as much of `a` as possible. */
  ghost predicate IsFirstSplit(a: seq<int>, b: seq<int>, i: int, j: int) {
    IsSplit(a, b, i, j) && (j > 0 && i < |a| ==> b[j - 1] < a[i])
  }

  // ------------------------------------------------------------------ splits

  /** Nothing left of a split exceeds anything right of it. */
  lemma SplitOrders(a: seq<int>, b: seq<int>, i: int, j: int, x: int, y: int)
    requires Sorted(a) && Sorted(b) && IsSplit(a, b, i, j)
    requires x in a[..i] || x in b[..j]
    requires y in a[i..] || y in b[j..]
    ensures x <= y
  {
    if x in a[..i] {
      var p :| 0 <= p < i && a[p] == x;
      assert Ordered(a, p, i - 1) && Ordered(a, p, i);
    } else {
      var p :| 0 <= p < j && b[p] == x;
      assert Ordered(b, p, j - 1) && Ordered(b, p, j);
    }
    if y in a[i..] {
      var q :| i <= q < |a| && a[q] == y;
      assert Ordered(a, i, q);
    } else {
      var q :| j <= q < |b| && b[q] == y;
      assert Ordered(b, j, q);
    }
  }

  lemma CutMultiset(s: seq<int>, i: nat)
    requires i <= |s|
    ensures multiset(s[..i]) + multiset(s[i..]) == multiset(s)
  {
    assert s == s[..i] + s[i..];
  }

  lemma SplitMergeSorted(a: seq<int>, b: seq<int>, i: int, j: int)
    requires Sorted(a) && Sorted(b) && IsSplit(a, b, i, j)
    ensures Sorted(Merge(a[..i], b[..j]) + Merge(a[i..], b[j..]))
  {
    var l, r := Merge(a[..i], b[..j]), Merge(a[i..], b[j..]);
    assert a[0..i] == a[..i] && a[i..|a|] == a[i..] && b[0..j] == b[..j] && b[j..|b|] == b[j..];
    SortedPiece(a, 0, i);
    SortedPiece(a, i, |a|);
    SortedPiece(b, 0, j);
    SortedPiece(b, j, |b|);
    MergeSorted(a[..i], b[..j]);
    MergeSorted(a[i..], b[j..]);
    forall x, y | x in l && y in r ensures x <= y {
      MergeMember(a[..i], b[..j], x);
      MergeMember(a[i..], b[j..], y);
      SplitOrders(a, b, i, j, x, y);
    }
    SortedConcat(l, r);
  }

  lemma SplitMergeKeys(a: seq<int>, b: seq<int>, i: int, j: int, m: seq<int>, l: seq<int>, r: seq<int>)
    requires 0 <= i <= |a| && 0 <= j <= |b|
    requires m == Merge(a, b) && l == Merge(a[..i], b[..j]) && r == Merge(a[i..], b[j..])
    ensures multiset(m) == multiset(l + r)
  {
    MergeMultiset(a[..i], b[..j]);
    MergeMultiset(a[i..], b[j..]);
    MergeMultiset(a, b);
    CutMultiset(a, i);
    CutMultiset(b, j);
  }

  /** A split cuts the merge in two merges. */
  lemma SplitMerge(a: seq<int>, b: seq<int>, i: int, j: int)
    requires Sorted(a) && Sorted(b) && IsSplit(a, b, i, j)
    ensures Merge(a, b) == Merge(a[..i], b[..j]) + Merge(a[i..], b[j..])
  {
    var m, l, r := Merge(a, b), Merge(a[..i], b[..j]), Merge(a[i..], b[j..]);
    SplitMergeSorted(a, b, i, j);
    SplitMergeKeys(a, b, i, j, m, l, r);
    MergeSorted(a, b);
    SortedUnique(m, l + r);
  }

  lemma CutTwice(s: seq<int>, i: int, i': int)
    requires 0 <= i <= i' <= |s|
    ensures s[..i'][..i] == s[..i] && s[..i'][i..] == s[i..i']
  {}

  lemma SplitOfPrefix(a: seq<int>, b: seq<int>, i: int, j: int, i': int, j': int)
    requires 0 <= i <= i' <= |a| && 0 <= j <= j' <= |b| && IsSplit(a, b, i, j)
    ensures IsSplit(a[..i'], b[..j'], i, j)
  {}

  /** Between two ordered splits, the merge is the merge of the pieces between. */
  lemma MergeBetween(a: seq<int>, b: seq<int>, i: int, j: int, i': int, j': int)
    requires Sorted(a) && Sorted(b) && i <= i' && j <= j'
    requires IsSplit(a, b, i, j) && IsSplit(a, b, i', j')
    ensures Merge(a, b)[i + j..i' + j'] == Merge(a[i..i'], b[j..j'])
  {
    var l, m, r := Merge(a[..i], b[..j]), Merge(a[i..i'], b[j..j']), Merge(a[i'..], b[j'..]);
    assert Merge(a, b) == l + m + r by {
      SplitMerge(a, b, i', j');
      assert a[0..i'] == a[..i'] && b[0..j'] == b[..j'];
      SortedPiece(a, 0, i');
      SortedPiece(b, 0, j');
      SplitOfPrefix(a, b, i, j, i', j');
      SplitMerge(a[..i'], b[..j'], i, j);
      CutTwice(a, i, i');
      CutTwice(b, j, j');
    }
  }

  /** No later split takes less of `b` than a first split does. */
  lemma LaterSplitTakesMoreB(a: seq<int>, b: seq<int>, i: int, j: int, i': int, j': int)
    requires Sorted(a) && Sorted(b)
    requires IsFirstSplit(a, b, i, j) && IsSplit(a, b, i', j') && i + j <= i' + j'
    ensures j <= j'
  {
    assert Ordered(b, j', j - 1) && Ordered(a, i, i' - 1);
  }

  /** When a later split takes less of `a`, everything in between is one value. */
  lemma TiesBetween(a: seq<int>, b: seq<int>, i: int, j: int, i': int, j': int)
    requires Sorted(a) && Sorted(b) && i' < i && j <= j'
    requires IsSplit(a, b, i, j) && IsSplit(a, b, i', j')
    ensures IsSplit(a, b, i, j')
    ensures forall k :: j <= k < j' ==> b[k] == a[i - 1]
  {
    assert Ordered(a, i', i - 1) && Ordered(a, i - 1, i);
    assert j < j' ==> b[j' - 1] <= a[i'] <= a[i - 1] <= b[j];
    forall k | j <= k < j' ensures b[k] == a[i - 1] {
      assert Ordered(b, j, k) && Ordered(b, k, j' - 1);
    }
    assert Ordered(b, j' - 1, j');
  }

  // --------------------------------------------------------- co-rank searches


  function Lowest(b: seq<int>, gamma: int): int { Max(0, gamma - |b|) }
  function Highest(a: seq<int>, gamma: int): int { Min(|a|, gamma) }

  predicate SearchRange(a: seq<int>, b: seq<int>, gamma: int, lo: int, hi: int) {
    Lowest(b, gamma) <= lo < hi <= Highest(a, gamma)
  }

  /** One turn of a search loop, whichever way the comparison goes: `right` moves the lower end. */
  function Halve(lo: int, hi: int, right: bool): (int, int) {
    if right then ((lo + hi) / 2, hi) else (lo, (lo + hi) / 2)
  }

  /** The bounds after k turns, with the comparisons' outcomes as given. */
  function Halved(lo: int, hi: int, outcomes: nat -> bool, k: nat): (int, int) {
    if k == 0 then (lo, hi)
    else
      var (l, h) := Halved(lo, hi, outcomes, k - 1);
      Halve(l, h, outcomes(k - 1))
  }

  /** The end search leaves its loop when its bounds are one apart. */
  ghost predicate Ends(lo: int, hi: int, outcomes: nat -> bool) {
    exists k :: Halved(lo, hi, outcomes, k).0 + 1 == Halved(lo, hi, outcomes, k).1
  }

  /** Equal bounds stay equal, so the loop runs forever. */
  lemma {:induction false} EqualBoundsStay(lo: int, outcomes: nat -> bool, k: nat)
    ensures Halved(lo, lo, outcomes, k) == (lo, lo)
  {
    if k > 0 { EqualBoundsStay(lo, outcomes, k - 1); }
  }

  lemma HalveShrinks(lo: int, hi: int, right: bool)
    requires lo + 1 < hi
    ensures var (l, h) := Halve(lo, hi, right); l < h && h - l < hi - lo
  {}

  /** Proper bounds get one apart within hi - lo turns. */
  lemma {:induction false} ProperBoundsEnd(lo: int, hi: int, outcomes: nat -> bool, k: nat)
    requires var (l, h) := Halved(lo, hi, outcomes, k); l < h
    ensures Ends(lo, hi, outcomes)
    decreases Halved(lo, hi, outcomes, k).1 - Halved(lo, hi, outcomes, k).0
  {
    var (l, h) := Halved(lo, hi, outcomes, k);
    if l + 1 < h {
      HalveShrinks(l, h, outcomes(k));
      var next := k + 1;
      assert Halved(lo, hi, outcomes, next) == Halve(l, h, outcomes(k));
      ProperBoundsEnd(lo, hi, outcomes, next);
    }
  }

  /** The end search of rank gamma ends, whatever the comparisons say, exactly when both sides are
      nonempty and the rank is inside; otherwise it never does. */
  lemma EndSearchEndsExactly(a: seq<int>, b: seq<int>, gamma: nat, outcomes: nat -> bool)
    requires gamma <= |a| + |b|
    ensures Ends(Lowest(b, gamma), Highest(a, gamma), outcomes) <==> |a| > 0 && |b| > 0 && 0 < gamma < |a| + |b|
  {
    var lo, hi := Lowest(b, gamma), Highest(a, gamma);
    if lo < hi {
      assert Halved(lo, hi, outcomes, 0) == (lo, hi);
      ProperBoundsEnd(lo, hi, outcomes, 0);
    } else {
      forall k: nat ensures Halved(lo, hi, outcomes, k) == (lo, hi) { EqualBoundsStay(lo, outcomes, k); }
    }
  }

  /** The start search: `<=` when halving. Returns how much of `a` lies to the left. */
  function StartSearch(a: seq<int>, b: seq<int>, gamma: int, lo: int, hi: int): (alpha: int)
    requires SearchRange(a, b, gamma, lo, hi)
    ensures lo <= alpha <= hi
    decreases hi - lo
  {
    if lo + 1 < hi then
      var mid := (lo + hi) / 2;
      if a[mid] <= b[gamma - mid] then StartSearch(a, b, gamma, mid, hi)
      else StartSearch(a, b, gamma, lo, mid)
    else if a[lo] <= b[gamma - hi] then hi else lo
  }

  /** The end search: `<` when halving, `<=` at the end. */
  function EndSearch(a: seq<int>, b: seq<int>, gamma: int, lo: int, hi: int): (alpha: int)
    requires SearchRange(a, b, gamma, lo, hi)
    ensures lo <= alpha <= hi
    decreases hi - lo
  {
    if lo + 1 != hi then
      var mid := (lo + hi) / 2;
      if a[mid] < b[gamma - mid] then EndSearch(a, b, gamma, mid, hi)
      else EndSearch(a, b, gamma, lo, mid)
    else if a[lo] <= b[gamma - hi] then hi else lo
  }

  /** What halving keeps: the lower end may go left, the upper end may not. */
  ghost predicate StartBracket(a: seq<int>, b: seq<int>, gamma: int, lo: int, hi: int) {
    && SearchRange(a, b, gamma, lo, hi)
    && (lo > 0 && gamma - lo < |b| ==> a[lo] <= b[gamma - lo])
    && (hi < |a| && gamma - hi > 0 ==> b[gamma - hi] < a[hi])
  }

  ghost predicate EndBracket(a: seq<int>, b: seq<int>, gamma: int, lo: int, hi: int) {
    && SearchRange(a, b, gamma, lo, hi)
    && (lo > 0 && gamma - lo < |b| ==> a[lo] <= b[gamma - lo])
    && (hi < |a| && gamma - hi > 0 ==> b[gamma - hi] <= a[hi])
  }

  lemma StartSearchStops(a: seq<int>, b: seq<int>, gamma: int, lo: int)
    requires Sorted(a) && Sorted(b) && StartBracket(a, b, gamma, lo, lo + 1)
    ensures var alpha := if a[lo] <= b[gamma - lo - 1] then lo + 1 else lo;
            IsFirstSplit(a, b, alpha, gamma - alpha)
  {
    assert Ordered(a, lo - 1, lo) && Ordered(b, gamma - lo - 2, gamma - lo - 1);
  }

  lemma EndSearchStops(a: seq<int>, b: seq<int>, gamma: int, lo: int)
    requires Sorted(a) && Sorted(b) && EndBracket(a, b, gamma, lo, lo + 1)
    ensures var alpha := if a[lo] <= b[gamma - lo - 1] then lo + 1 else lo;
            IsSplit(a, b, alpha, gamma - alpha)
  {
    assert Ordered(a, lo - 1, lo) && Ordered(b, gamma - lo - 2, gamma - lo - 1);
  }

  lemma StartBracketHalves(a: seq<int>, b: seq<int>, gamma: int, lo: int, mid: int, hi: int)
    requires StartBracket(a, b, gamma, lo, hi) && lo < mid < hi
    ensures if a[mid] <= b[gamma - mid] then StartBracket(a, b, gamma, mid, hi)
            else StartBracket(a, b, gamma, lo, mid)
  {}

  lemma EndBracketHalves(a: seq<int>, b: seq<int>, gamma: int, lo: int, mid: int, hi: int)
    requires EndBracket(a, b, gamma, lo, hi) && lo < mid < hi
    ensures if a[mid] < b[gamma - mid] then EndBracket(a, b, gamma, mid, hi)
            else EndBracket(a, b, gamma, lo, mid)
  {}

  lemma MiddleInside(lo: int, hi: int, mid: int)
    requires lo + 1 < hi && mid == (lo + hi) / 2
    ensures lo < mid < hi
  {}

  /** A turn of the end search stays inside both sides and keeps what it will find. */
  lemma EndTurn(a: seq<int>, b: seq<int>, gamma: int, lo: int, hi: int, mid: int)
    requires SearchRange(a, b, gamma, lo, hi) && lo + 1 < hi && mid == (lo + hi) / 2
    ensures lo < mid < hi && 0 <= mid < |a| && 0 <= gamma - mid < |b|
    ensures EndSearch(a, b, gamma, lo, hi)
         == if a[mid] < b[gamma - mid] then EndSearch(a, b, gamma, mid, hi) else EndSearch(a, b, gamma, lo, mid)
  {
    MiddleInside(lo, hi, mid);
  }

  /** A turn of the start search stays inside both sides and keeps what it will find. */
  lemma StartTurn(a: seq<int>, b: seq<int>, gamma: int, lo: int, hi: int, mid: int)
    requires SearchRange(a, b, gamma, lo, hi) && lo + 1 < hi && mid == (lo + hi) / 2
    ensures lo < mid < hi && 0 <= mid < |a| && 0 <= gamma - mid < |b|
    ensures StartSearch(a, b, gamma, lo, hi)
         == if a[mid] <= b[gamma - mid] then StartSearch(a, b, gamma, mid, hi) else StartSearch(a, b, gamma, lo, mid)
  {
    MiddleInside(lo, hi, mid);
  }

  lemma StartSearchHalves(a: seq<int>, b: seq<int>, gamma: int, lo: int, hi: int) returns (mid: int)
    requires StartBracket(a, b, gamma, lo, hi) && lo + 1 < hi
    ensures lo < mid < hi && 0 <= mid < |a| && 0 <= gamma - mid < |b|
    ensures if a[mid] <= b[gamma - mid]
            then StartBracket(a, b, gamma, mid, hi)
                 && StartSearch(a, b, gamma, lo, hi) == StartSearch(a, b, gamma, mid, hi)
            else StartBracket(a, b, gamma, lo, mid)
                 && StartSearch(a, b, gamma, lo, hi) == StartSearch(a, b, gamma, lo, mid)
  {
    mid := (lo + hi) / 2;
    MiddleInside(lo, hi, mid);
    StartBracketHalves(a, b, gamma, lo, mid, hi);
  }

  lemma {:induction false} StartSearchFindsFirstSplit(a: seq<int>, b: seq<int>, gamma: int, lo: int, hi: int)
    returns (alpha: int)
    requires Sorted(a) && Sorted(b) && StartBracket(a, b, gamma, lo, hi)
    ensures alpha == StartSearch(a, b, gamma, lo, hi) && IsFirstSplit(a, b, alpha, gamma - alpha)
    decreases hi - lo
  {
    if lo + 1 == hi {
      StartSearchStops(a, b, gamma, lo);
      alpha := StartSearch(a, b, gamma, lo, hi);
    } else {
      var mid := StartSearchHalves(a, b, gamma, lo, hi);
      if a[mid] <= b[gamma - mid] {
        alpha := StartSearchFindsFirstSplit(a, b, gamma, mid, hi);
      } else {
        alpha := StartSearchFindsFirstSplit(a, b, gamma, lo, mid);
      }
    }
  }

  lemma EndSearchHalves(a: seq<int>, b: seq<int>, gamma: int, lo: int, hi: int) returns (mid: int)
    requires EndBracket(a, b, gamma, lo, hi) && lo + 1 < hi
    ensures lo < mid < hi && 0 <= mid < |a| && 0 <= gamma - mid < |b|
    ensures if a[mid] < b[gamma - mid]
            then EndBracket(a, b, gamma, mid, hi)
                 && EndSearch(a, b, gamma, lo, hi) == EndSearch(a, b, gamma, mid, hi)
            else EndBracket(a, b, gamma, lo, mid)
                 && EndSearch(a, b, gamma, lo, hi) == EndSearch(a, b, gamma, lo, mid)
  {
    mid := (lo + hi) / 2;
    MiddleInside(lo, hi, mid);
    EndBracketHalves(a, b, gamma, lo, mid, hi);
  }

  lemma {:induction false} EndSearchFindsSplit(a: seq<int>, b: seq<int>, gamma: int, lo: int, hi: int)
    returns (alpha: int)
    requires Sorted(a) && Sorted(b) && EndBracket(a, b, gamma, lo, hi)
    ensures alpha == EndSearch(a, b, gamma, lo, hi) && IsSplit(a, b, alpha, gamma - alpha)
    decreases hi - lo
  {
    if lo + 1 == hi {
      EndSearchStops(a, b, gamma, lo);
      alpha := EndSearch(a, b, gamma, lo, hi);
    } else {
      var mid := EndSearchHalves(a, b, gamma, lo, hi);
      if a[mid] < b[gamma - mid] {
        alpha := EndSearchFindsSplit(a, b, gamma, mid, hi);
      } else {
        alpha := EndSearchFindsSplit(a, b, gamma, lo, mid);
      }
    }
  }

  // ------------------------------------------------------------------- slices

  /** The inputs one call accepts: with more than one thread both sides are
      non-empty and there are at least as many keys as threads. */
  predicate MergeInputs(a: seq<int>, b: seq<int>, nThreads: nat) {
    nThreads == 1 || (nThreads > 1 && |a| > 0 && |b| > 0 && nThreads <= |a| + |b|)
  }

  function Gamma(a: seq<int>, b: seq<int>, nThreads: nat, t: nat): (g: nat)
    requires nThreads > 0
  {
    t * (|a| + |b|) / nThreads
  }

  lemma GammaStep(a: seq<int>, b: seq<int>, nThreads: nat, t: nat)
    requires 0 <= t < nThreads
    ensures Gamma(a, b, nThreads, t) <= Gamma(a, b, nThreads, t + 1) <= |a| + |b|
    ensures t == 0 ==> Gamma(a, b, nThreads, t) == 0
    ensures t + 1 == nThreads ==> Gamma(a, b, nThreads, t + 1) == |a| + |b|
  {
    var s := |a| + |b|;
    ProductLe(t, t + 1, s);
    ProductLe(t + 1, nThreads, s);
    assert (s + 1) * nThreads == nThreads * s + nThreads;
    DivIs(nThreads * s, nThreads, s);
    DivMonotone(t * s, (t + 1) * s, nThreads);
    DivMonotone((t + 1) * s, nThreads * s, nThreads);
  }

  lemma GammaInside(a: seq<int>, b: seq<int>, nThreads: nat, t: nat)
    requires 0 < t < nThreads <= |a| + |b|
    ensures 0 < Gamma(a, b, nThreads, t) < |a| + |b|
  {
    var s := |a| + |b|;
    ProductLe(1, t, s);
    DivMonotone(nThreads, t * s, nThreads);
    DivIs(nThreads, nThreads, 1);
    ProductLe(t + 1, nThreads, s);
    assert (t + 1) * s == t * s + s;
    DivBelow(t * s, nThreads, s);
  }

  /** The thread whose nominal range holds rank k. */
  lemma {:induction false} GammaCovers(a: seq<int>, b: seq<int>, nThreads: nat, k: nat, n: nat) returns (t: nat)
    requires 0 < n <= nThreads && k < Gamma(a, b, nThreads, n)
    ensures t < n && Gamma(a, b, nThreads, t) <= k < Gamma(a, b, nThreads, t + 1)
  {
    t := n - 1;
    if k < Gamma(a, b, nThreads, t) {
      assert n > 1 by { GammaStep(a, b, nThreads, t); }
      t := GammaCovers(a, b, nThreads, k, n - 1);
    }
  }

  /** All threads' end searches end. */
  ghost predicate SearchesEnd(a: seq<int>, b: seq<int>, nThreads: nat) {
    forall t, outcomes: nat -> bool :: 0 < t < nThreads ==>
      Ends(Lowest(b, Gamma(a, b, nThreads, t)), Highest(a, Gamma(a, b, nThreads, t)), outcomes)
  }

  lemma FirstGamma(a: seq<int>, b: seq<int>, nThreads: nat)
    requires nThreads > 1
    ensures Gamma(a, b, nThreads, 1) <= |a| + |b|
    ensures Gamma(a, b, nThreads, 1) > 0 ==> nThreads <= |a| + |b|
  {
    GammaStep(a, b, nThreads, 0);
    if |a| + |b| < nThreads { DivBelow(|a| + |b|, nThreads, 1); }
  }

  /** The condition on the inputs is exactly that all searches end. */
  lemma SearchesEndExactly(a: seq<int>, b: seq<int>, nThreads: nat)
    requires nThreads > 0
    ensures SearchesEnd(a, b, nThreads) <==> MergeInputs(a, b, nThreads)
  {
    if MergeInputs(a, b, nThreads) {
      forall t, outcomes: nat -> bool | 0 < t < nThreads
        ensures Ends(Lowest(b, Gamma(a, b, nThreads, t)), Highest(a, Gamma(a, b, nThreads, t)), outcomes)
      {
        GammaInside(a, b, nThreads, t);
        EndSearchEndsExactly(a, b, Gamma(a, b, nThreads, t), outcomes);
      }
    } else if SearchesEnd(a, b, nThreads) {
      var outcomes: nat -> bool := k => true;
      FirstGamma(a, b, nThreads);
      EndSearchEndsExactly(a, b, Gamma(a, b, nThreads, 1), outcomes);
    }
  }

  /** Two keys and three threads: the first thread's end search never ends. */
  lemma ThreeThreadsTwoKeys(outcomes: nat -> bool)
    ensures var gamma := Gamma([1], [2], 3, 1); !Ends(Lowest([2], gamma), Highest([1], gamma), outcomes)
  {
    assert Gamma([1], [2], 3, 1) == 0;
    EndSearchEndsExactly([1], [2], 0, outcomes);
  }

  /** The stretch [alpha, alpha') of `a` and [beta, beta') of `b` a thread merges. */
  datatype Cut = Cut(alpha: int, beta: int, alpha': int, beta': int) {
    function Size1(): int { alpha' - alpha }
    function Size2(): int { beta' - beta }
    function Rank(): int { alpha + beta }
    function Rank'(): int { alpha' + beta' }
  }

  ghost predicate GoodCut(a: seq<int>, b: seq<int>, c: Cut) {
    && IsFirstSplit(a, b, c.alpha, c.beta)
    && IsSplit(a, b, c.alpha', c.beta')
    && c.beta <= c.beta'
  }

  function StartAlpha(a: seq<int>, b: seq<int>, gamma: nat): int
    requires gamma > 0 ==> |a| > 0 && |b| > 0 && gamma < |a| + |b|
  {
    if gamma == 0 then 0 else StartSearch(a, b, gamma, Lowest(b, gamma), Highest(a, gamma))
  }

  function EndAlpha(a: seq<int>, b: seq<int>, gamma: nat): int
    requires gamma < |a| + |b| ==> gamma > 0 && |a| > 0 && |b| > 0
  {
    if gamma >= |a| + |b| then |a| else EndSearch(a, b, gamma, Lowest(b, gamma), Highest(a, gamma))
  }

  lemma ThreadRanks(a: seq<int>, b: seq<int>, nThreads: nat, t: nat)
    requires MergeInputs(a, b, nThreads) && t < nThreads
    ensures var (g, g') := (Gamma(a, b, nThreads, t), Gamma(a, b, nThreads, t + 1));
            && (if t == 0 then g == 0 else 0 < g < |a| + |b|)
            && (if t == nThreads - 1 then g' == |a| + |b| else 0 < g' < |a| + |b|)
            && g <= g'
  {
    GammaStep(a, b, nThreads, t);
    if t > 0 { GammaInside(a, b, nThreads, t); }
    if t < nThreads - 1 { GammaInside(a, b, nThreads, t + 1); }
  }

  /** The cut thread t computes for itself. */
  function ThreadCut(a: seq<int>, b: seq<int>, nThreads: nat, t: nat): (c: Cut)
    requires MergeInputs(a, b, nThreads) && t < nThreads
    ensures c.Rank() == Gamma(a, b, nThreads, t) && c.Rank'() == Gamma(a, b, nThreads, t + 1)
  {
    ThreadRanks(a, b, nThreads, t);
    var g, g' := Gamma(a, b, nThreads, t), Gamma(a, b, nThreads, t + 1);
    var i, i' := StartAlpha(a, b, g), EndAlpha(a, b, g');
    Cut(i, g - i, i', g' - i')
  }

  lemma StartAlphaSplits(a: seq<int>, b: seq<int>, g: nat)
    requires Sorted(a) && Sorted(b) && (g > 0 ==> |a| > 0 && |b| > 0 && g < |a| + |b|)
    ensures var i := StartAlpha(a, b, g); IsFirstSplit(a, b, i, g - i)
  {
    if g > 0 { var i := StartSearchFindsFirstSplit(a, b, g, Lowest(b, g), Highest(a, g)); }
  }

  lemma EndAlphaSplits(a: seq<int>, b: seq<int>, g: nat)
    requires Sorted(a) && Sorted(b) && g <= |a| + |b| && (g < |a| + |b| ==> g > 0 && |a| > 0 && |b| > 0)
    ensures var i := EndAlpha(a, b, g); IsSplit(a, b, i, g - i)
  {
    if g < |a| + |b| { var i := EndSearchFindsSplit(a, b, g, Lowest(b, g), Highest(a, g)); }
  }

  lemma CutBetweenRanks(a: seq<int>, b: seq<int>, g: nat, g': nat)
    requires Sorted(a) && Sorted(b) && g <= g' <= |a| + |b|
    requires g > 0 ==> |a| > 0 && |b| > 0 && g < |a| + |b|
    requires g' < |a| + |b| ==> g' > 0 && |a| > 0 && |b| > 0
    ensures GoodCut(a, b, Cut(StartAlpha(a, b, g), g - StartAlpha(a, b, g), EndAlpha(a, b, g'),
                              g' - EndAlpha(a, b, g')))
  {
    var i, i' := StartAlpha(a, b, g), EndAlpha(a, b, g');
    StartAlphaSplits(a, b, g);
    EndAlphaSplits(a, b, g');
    LaterSplitTakesMoreB(a, b, i, g - i, i', g' - i');
  }

  /** Both searches succeed: the start is the first split of its rank, the end is a
      split of its rank, and the stretch of `b` is never negative. */
  lemma ThreadCutGood(a: seq<int>, b: seq<int>, nThreads: nat, t: nat)
    requires Sorted(a) && Sorted(b) && MergeInputs(a, b, nThreads) && t < nThreads
    ensures GoodCut(a, b, ThreadCut(a, b, nThreads, t))
  {
    ThreadRanks(a, b, nThreads, t);
    CutBetweenRanks(a, b, Gamma(a, b, nThreads, t), Gamma(a, b, nThreads, t + 1));
  }

  /** n elements from offset o; a negative length is an empty slice. */
  function Slice(s: seq<int>, o: int, n: int): seq<int>
    requires n > 0 ==> 0 <= o && o + n <= |s|
  {
    if n <= 0 then [] else s[o..o + n]
  }

  /** The keys a thread with cut c stores, in order, starting at rank c.Rank(). */
  function CutMerge(a: seq<int>, b: seq<int>, c: Cut): seq<int>
    requires GoodCut(a, b, c)
  {
    Merge(Slice(a, c.alpha, c.Size1()), Slice(b, c.beta, c.Size2()))
  }

  lemma SliceIs(s: seq<int>, o: int, n: int, e: int)
    requires 0 <= o <= e <= |s| && n == e - o
    ensures Slice(s, o, n) == s[o..e]
  {}

  lemma ForwardSlices(a: seq<int>, b: seq<int>, c: Cut)
    requires GoodCut(a, b, c) && c.alpha <= c.alpha'
    ensures CutMerge(a, b, c) == Merge(a[c.alpha..c.alpha'], b[c.beta..c.beta'])
  {
    SliceIs(a, c.alpha, c.Size1(), c.alpha');
    SliceIs(b, c.beta, c.Size2(), c.beta');
  }

  lemma BetweenCut(a: seq<int>, b: seq<int>, c: Cut, x: seq<int>, y: seq<int>, g: int, g': int)
    requires Sorted(a) && Sorted(b) && GoodCut(a, b, c) && c.alpha <= c.alpha'
    requires x == a[c.alpha..c.alpha'] && y == b[c.beta..c.beta'] && g == c.Rank() && g' == c.Rank'()
    ensures Merge(a, b)[g..g'] == Merge(x, y)
  {
    MergeBetween(a, b, c.alpha, c.beta, c.alpha', c.beta');
  }

  lemma ForwardCut(a: seq<int>, b: seq<int>, c: Cut)
    requires Sorted(a) && Sorted(b) && GoodCut(a, b, c) && c.alpha <= c.alpha'
    ensures CutMerge(a, b, c) == Merge(a, b)[c.Rank()..c.Rank'()]
  {
    ForwardSlices(a, b, c);
    BetweenCut(a, b, c, a[c.alpha..c.alpha'], b[c.beta..c.beta'], c.Rank(), c.Rank'());
  }

  lemma CutRanks(a: seq<int>, b: seq<int>, c: Cut)
    requires GoodCut(a, b, c) && c.alpha <= c.alpha'
    ensures c.Rank() <= c.Rank'() <= |a| + |b|
  {}

  /** A cut with a negative stretch of `a` stores what the empty stretch would. */
  lemma BackwardCut(a: seq<int>, b: seq<int>, c: Cut)
    requires Sorted(a) && Sorted(b) && GoodCut(a, b, c) && c.alpha > c.alpha'
    ensures GoodCut(a, b, c.(alpha' := c.alpha))
    ensures CutMerge(a, b, c) == CutMerge(a, b, c.(alpha' := c.alpha))
  {
    TiesBetween(a, b, c.alpha, c.beta, c.alpha', c.beta');
  }

  /** The rank up to which a thread with cut c stores. */
  function StoreEnd(c: Cut): int { if c.alpha <= c.alpha' then c.Rank'() else c.alpha + c.beta' }

  lemma ForwardEnds(a: seq<int>, b: seq<int>, d: Cut, g: int, e: int)
    requires Sorted(a) && Sorted(b) && GoodCut(a, b, d) && d.alpha == d.alpha'
    requires g == d.alpha + d.beta && e == d.alpha + d.beta'
    ensures g <= e <= |a| + |b| && CutMerge(a, b, d) == Merge(a, b)[g..e]
  {
    CutRanks(a, b, d);
    ForwardSlices(a, b, d);
    BetweenCut(a, b, d, a[d.alpha..d.alpha'], b[d.beta..d.beta'], g, e);
  }

  lemma BackwardEnds(a: seq<int>, b: seq<int>, c: Cut, d: Cut, g: int, e: int)
    requires Sorted(a) && Sorted(b) && GoodCut(a, b, c) && c.alpha > c.alpha' && d == c.(alpha' := c.alpha)
    requires g == c.alpha + c.beta && e == c.alpha + c.beta'
    ensures g <= e <= |a| + |b| && CutMerge(a, b, c) == Merge(a, b)[g..e]
  {
    BackwardCut(a, b, c);
    ForwardEnds(a, b, d, g, e);
  }

  lemma CutMergeEnds(a: seq<int>, b: seq<int>, c: Cut)
    requires Sorted(a) && Sorted(b) && GoodCut(a, b, c)
    ensures c.Rank() <= StoreEnd(c) <= |a| + |b| && c.Rank'() <= StoreEnd(c)
    ensures CutMerge(a, b, c) == Merge(a, b)[c.Rank()..StoreEnd(c)]
  {
    if c.alpha <= c.alpha' {
      CutRanks(a, b, c);
      ForwardCut(a, b, c);
    } else {
      BackwardEnds(a, b, c, c.(alpha' := c.alpha), c.Rank(), StoreEnd(c));
    }
  }

  lemma PieceIs(m: seq<int>, k: seq<int>, g: nat, e: nat)
    requires g <= e <= |m| && k == m[g..e]
    ensures |k| == e - g && k == m[g..g + |k|]
  {}

  /** Each store agrees with the sequential merge, and the nominal range is covered,
      even when the slice of `a` has negative length. */
  lemma CutMergeIsMerge(a: seq<int>, b: seq<int>, c: Cut)
    requires Sorted(a) && Sorted(b) && GoodCut(a, b, c)
    ensures c.Rank'() <= c.Rank() + |CutMerge(a, b, c)| <= |a| + |b|
    ensures CutMerge(a, b, c) == Merge(a, b)[c.Rank()..c.Rank() + |CutMerge(a, b, c)|]
  {
    CutMergeEnds(a, b, c);
    PieceIs(Merge(a, b), CutMerge(a, b, c), c.Rank(), StoreEnd(c));
  }

  /** Slices really do overlap: with four equal keys on each side and four threads,
      thread 1 owns ranks 2 and 3 but its slice of `a` has length -1, so it also
      stores to rank 4. */
  lemma OverlappingSlices()
    ensures var (a, b) := ([5, 5, 5, 5], [5, 5, 5, 5]);
            && MergeInputs(a, b, 4)
            && ThreadCut(a, b, 4, 1).Size1() == -1
            && ThreadCut(a, b, 4, 1).Rank() + ThreadCut(a, b, 4, 1).Size2() > ThreadCut(a, b, 4, 2).Rank()
  {
    var a, b := [5, 5, 5, 5], [5, 5, 5, 5];
    assert Gamma(a, b, 4, 1) == 2 && Gamma(a, b, 4, 2) == 4;
    assert StartSearch(a, b, 2, 0, 2) == StartSearch(a, b, 2, 1, 2) == 2;
    assert EndSearch(a, b, 4, 0, 4) == EndSearch(a, b, 4, 0, 2) == EndSearch(a, b, 4, 0, 1) == 1;
  }

  // ------------------------------------------------------------ parallel merge

  /** The stores of a thread with cut c, into buffer `buf` from offset `base`. */
  function CutProgram(a: seq<int>, b: seq<int>, c: Cut, buf: nat, base: nat): (p: Program)
    requires GoodCut(a, b, c)
  {
    KeyProgram(buf, base + c.Rank(), CutMerge(a, b, c))
  }

  lemma CutKeys(a: seq<int>, b: seq<int>, c: Cut, m: seq<int>, g: int, keys: seq<int>)
    requires Sorted(a) && Sorted(b) && GoodCut(a, b, c) && m == Merge(a, b) && g == c.Rank()
             && keys == CutMerge(a, b, c)
    ensures 0 <= g && g + |keys| <= |m| && keys == m[g..g + |keys|]
  {
    CutMergeIsMerge(a, b, c);
  }

  lemma CutStores(a: seq<int>, b: seq<int>, c: Cut, m: seq<int>, g: nat, keys: seq<int>, buf: nat, base: nat, w: Store)
    requires Sorted(a) && Sorted(b) && GoodCut(a, b, c) && m == Merge(a, b) && g == c.Rank()
             && keys == CutMerge(a, b, c)
    requires w in KeyProgram(buf, base + g, keys)
    ensures w.buf == buf && base <= w.idx < base + |m| && w.val == m[w.idx - base]
  {
    CutKeys(a, b, c, m, g, keys);
    StretchIs(m, g, keys, buf, base, w);
  }

  lemma CutProgramStores(a: seq<int>, b: seq<int>, c: Cut, m: seq<int>, buf: nat, base: nat, w: Store)
    requires Sorted(a) && Sorted(b) && GoodCut(a, b, c) && m == Merge(a, b)
    requires w in CutProgram(a, b, c, buf, base)
    ensures w.buf == buf && base <= w.idx < base + |m| && w.val == m[w.idx - base]
  {
    var g: nat, keys := c.Rank(), CutMerge(a, b, c);
    assert CutProgram(a, b, c, buf, base) == KeyProgram(buf, base + g, keys);
    CutStores(a, b, c, m, g, keys, buf, base, w);
  }

  lemma StretchIs(m: seq<int>, g: nat, k: seq<int>, buf: nat, base: nat, w: Store)
    requires g + |k| <= |m| && k == m[g..g + |k|] && w in KeyProgram(buf, base + g, k)
    ensures w.buf == buf && base <= w.idx < base + |m| && w.val == m[w.idx - base]
  {
    StretchStores(m, g, |k|, buf, base, w);
  }

  lemma CutReaches(a: seq<int>, b: seq<int>, c: Cut, rank: int, end: int, keys: seq<int>)
    requires Sorted(a) && Sorted(b) && GoodCut(a, b, c) && rank == c.Rank() && end == c.Rank'()
             && keys == CutMerge(a, b, c)
    ensures 0 <= rank && end <= rank + |keys|
  {
    CutMergeIsMerge(a, b, c);
  }

  lemma CutProgramCovers(a: seq<int>, b: seq<int>, c: Cut, buf: nat, base: nat, k: nat)
    requires Sorted(a) && Sorted(b) && GoodCut(a, b, c) && c.Rank() <= k < c.Rank'()
    ensures Hits(CutProgram(a, b, c, buf, base), buf, base + k)
  {
    CutReaches(a, b, c, c.Rank(), c.Rank'(), CutMerge(a, b, c));
    KeyProgramHits(buf, base + c.Rank(), CutMerge(a, b, c), buf, base + k);
  }

  function ThreadProgram(a: seq<int>, b: seq<int>, nThreads: nat, t: nat, buf: nat, base: nat): (p: Program)
    requires Sorted(a) && Sorted(b) && MergeInputs(a, b, nThreads) && t < nThreads
  {
    ThreadCutGood(a, b, nThreads, t);
    CutProgram(a, b, ThreadCut(a, b, nThreads, t), buf, base)
  }

  function MergePrograms(a: seq<int>, b: seq<int>, nThreads: nat, buf: nat, base: nat): (ps: seq<Program>)
    requires Sorted(a) && Sorted(b) && MergeInputs(a, b, nThreads)
    ensures |ps| == nThreads
  {
    seq(nThreads, t requires 0 <= t < nThreads => ThreadProgram(a, b, nThreads, t, buf, base))
  }

  lemma ThreadProgramStores(a: seq<int>, b: seq<int>, nThreads: nat, t: nat, buf: nat, base: nat, w: Store)
    requires Sorted(a) && Sorted(b) && MergeInputs(a, b, nThreads) && t < nThreads
    requires w in ThreadProgram(a, b, nThreads, t, buf, base)
    ensures w.buf == buf && base <= w.idx < base + |a| + |b| && w.val == Merge(a, b)[w.idx - base]
  {
    ThreadCutGood(a, b, nThreads, t);
    CutProgramStores(a, b, ThreadCut(a, b, nThreads, t), Merge(a, b), buf, base, w);
  }

  /** A thread's stores begin at its share of the ranks, rounded down, and reach at least the next thread's. */
  lemma ThreadStartsAt(a: seq<int>, b: seq<int>, nThreads: nat, t: nat, buf: nat, base: nat, k: nat)
    requires Sorted(a) && Sorted(b) && MergeInputs(a, b, nThreads) && t < nThreads
    ensures var p := ThreadProgram(a, b, nThreads, t, buf, base);
            p != [] ==> p[0].idx == base + t * (|a| + |b|) / nThreads
    ensures t * (|a| + |b|) / nThreads <= k < (t + 1) * (|a| + |b|) / nThreads ==>
              Hits(ThreadProgram(a, b, nThreads, t, buf, base), buf, base + k)
  {
    ThreadCutGood(a, b, nThreads, t);
    var c := ThreadCut(a, b, nThreads, t);
    if c.Rank() <= k < c.Rank'() { CutProgramCovers(a, b, c, buf, base, k); }
  }

  /** Some thread stores to every rank. */
  lemma ThreadProgramsCover(a: seq<int>, b: seq<int>, nThreads: nat, buf: nat, base: nat, k: nat) returns (t: nat)
    requires Sorted(a) && Sorted(b) && MergeInputs(a, b, nThreads) && k < |a| + |b|
    ensures t < nThreads && Hits(ThreadProgram(a, b, nThreads, t, buf, base), buf, base + k)
  {
    GammaStep(a, b, nThreads, nThreads - 1);
    t := GammaCovers(a, b, nThreads, k, nThreads);
    ThreadCutGood(a, b, nThreads, t);
    CutProgramCovers(a, b, ThreadCut(a, b, nThreads, t), buf, base, k);
  }

  lemma PlacedValue(m: Memory, buf: nat, base: nat, s: seq<int>, w: Store)
    requires buf < |m| && base + |s| <= |m[buf]|
    requires w.buf == buf && base <= w.idx < base + |s| && w.val == s[w.idx - base]
    ensures var goal := Place(m, buf, base, s); InBounds(w, goal) && goal[w.buf][w.idx] == w.val
  {}

  lemma MergeProgramsAgree(a: seq<int>, b: seq<int>, nThreads: nat, m: Memory, buf: nat, base: nat)
    requires Sorted(a) && Sorted(b) && MergeInputs(a, b, nThreads)
    requires buf < |m| && base + |a| + |b| <= |m[buf]|
    ensures Agree(MergePrograms(a, b, nThreads, buf, base), Place(m, buf, base, Merge(a, b)))
  {
    var ps, goal := MergePrograms(a, b, nThreads, buf, base), Place(m, buf, base, Merge(a, b));
    forall t, w | 0 <= t < |ps| && w in ps[t]
      ensures InBounds(w, goal) && goal[w.buf][w.idx] == w.val
    {
      ThreadProgramStores(a, b, nThreads, t, buf, base, w);
      PlacedValue(m, buf, base, Merge(a, b), w);
    }
  }

  lemma MergeProgramsCover(a: seq<int>, b: seq<int>, nThreads: nat, buf: nat, base: nat, k: nat)
    requires Sorted(a) && Sorted(b) && MergeInputs(a, b, nThreads) && k < |a| + |b|
    ensures Written(MergePrograms(a, b, nThreads, buf, base), buf, base + k)
  {
    var t := ThreadProgramsCover(a, b, nThreads, buf, base, k);
    assert Hits(MergePrograms(a, b, nThreads, buf, base)[t], buf, base + k);
  }

  /** A location that is not written lies outside the placed keys. */
  lemma OutsidePlace(m: Memory, buf: nat, base: nat, s: seq<int>, ps: seq<Program>)
    requires buf < |m| && base + |s| <= |m[buf]| && forall k :: base <= k < base + |s| ==> Written(ps, buf, k)
    ensures forall c, k :: 0 <= c < |m| && 0 <= k < |m[c]| && !Written(ps, c, k) ==>
            m[c][k] == Place(m, buf, base, s)[c][k]
  {}

  /** The parallel merge theorem: for every interleaving of all slice merges the
      destination holds the sequential merge and nothing else changed. */
  lemma ParallelMergeCorrect(a: seq<int>, b: seq<int>, nThreads: nat, m: Memory, buf: nat, base: nat, sched: seq<nat>)
    requires Sorted(a) && Sorted(b) && MergeInputs(a, b, nThreads)
    requires buf < |m| && base + |a| + |b| <= |m[buf]|
    requires Complete(MergePrograms(a, b, nThreads, buf, base), sched)
    ensures AllInBounds(MergePrograms(a, b, nThreads, buf, base), m)
    ensures Run(m, MergePrograms(a, b, nThreads, buf, base), sched) == Place(m, buf, base, Merge(a, b))
  {
    var ps, goal := MergePrograms(a, b, nThreads, buf, base), Place(m, buf, base, Merge(a, b));
    MergeProgramsAgree(a, b, nThreads, m, buf, base);
    forall k | base <= k < base + |a| + |b| ensures Written(ps, buf, k)
    { MergeProgramsCover(a, b, nThreads, buf, base, k - base); }
    OutsidePlace(m, buf, base, Merge(a, b), ps);
    PhaseResult(m, ps, sched, goal);
  }
}
