/** The distribution of measured latencies, its clusters, and the search for a sensitivity
    that gives a requested number of clusters. */
module Clustering {
  import opened SortedSeqs
  import opened Chunks

  datatype Point = Point(val: int, percentile: real)

  /** How many values are at most v. */
  function CountUpTo(vals: seq<int>, v: int): (n: nat)
    ensures n <= |vals|
  {
    if vals == [] then 0 else CountUpTo(vals[1..], v) + (if vals[0] <= v then 1 else 0)
  }

  lemma {:induction false} CountConcat(s: seq<int>, t: seq<int>, v: int)
    ensures CountUpTo(s + t, v) == CountUpTo(s, v) + CountUpTo(t, v)
  {
    if s == [] {
      assert s + t == t;
    } else {
      CountConcat(s[1..], t, v);
      assert (s + t)[1..] == s[1..] + t;
    }
  }

  lemma {:induction false} CountAll(s: seq<int>, v: int)
    ensures (forall x :: x in s ==> x <= v) ==> CountUpTo(s, v) == |s|
    ensures (forall x :: x in s ==> x > v) ==> CountUpTo(s, v) == 0
  {
    if s != [] {
      CountAll(s[1..], v);
      assert s[0] in s && forall x :: x in s[1..] ==> x in s;
    }
  }

  lemma CountRemove(t: seq<int>, k: nat, v: int)
    requires k < |t|
    ensures CountUpTo(t, v) == CountUpTo(t[..k] + t[k + 1..], v) + (if t[k] <= v then 1 else 0)
  {
    assert t == t[..k] + ([t[k]] + t[k + 1..]);
    CountConcat(t[..k], t[k + 1..], v);
    CountConcat(t[..k], [t[k]] + t[k + 1..], v);
    assert ([t[k]] + t[k + 1..])[1..] == t[k + 1..];
  }

  lemma RemoveSame(s: seq<int>, t: seq<int>, k: nat)
    requires s != [] && k < |t| && t[k] == s[0] && multiset(s) == multiset(t)
    ensures multiset(s[1..]) == multiset(t[..k] + t[k + 1..])
  {
    HeadMultiset(s);
    assert t == t[..k] + ([t[k]] + t[k + 1..]);
    assert multiset(t[..k] + t[k + 1..]) == multiset(t) - multiset{t[k]};
  }

  /** The count only depends on the multiset of values. */
  lemma {:induction false} CountPermuted(s: seq<int>, t: seq<int>, v: int)
    requires multiset(s) == multiset(t)
    ensures CountUpTo(s, v) == CountUpTo(t, v)
    decreases |s|
  {
    if s == [] {
      assert |multiset(t)| == |t|;
    } else {
      assert s[0] in multiset(s) && s[0] in t;
      var k :| 0 <= k < |t| && t[k] == s[0];
      RemoveSame(s, t, k);
      CountPermuted(s[1..], t[..k] + t[k + 1..], v);
      CountRemove(t, k, v);
    }
  }

  ghost predicate Rising(points: seq<Point>) {
    forall i, j :: 0 <= i < j < |points| ==> points[i].val < points[j].val
  }

  /** A point holds a measured value and the share of measurements up to it. */
  ghost predicate Percentile(p: Point, vals: seq<int>)
    requires vals != []
  {
    p.val in vals && p.percentile == 100.0 * CountUpTo(vals, p.val) as real / |vals| as real
  }

  /** A value ends at index i of the sorted values. */
  predicate Boundary(s: seq<int>, i: nat) {
    0 < i <= |s| && (i < |s| ==> s[i] != s[i - 1])
  }

  lemma SortedCount(s: seq<int>, i: nat)
    requires Sorted(s) && Boundary(s, i)
    ensures CountUpTo(s, s[i - 1]) == i
  {
    var v := s[i - 1];
    assert s == s[..i] + s[i..];
    forall x | x in s[..i] ensures x <= v {
      var k :| 0 <= k < i && s[k] == x;
      assert Ordered(s, k, i - 1);
    }
    forall x | x in s[i..] ensures x > v {
      var k :| 0 <= k < |s| - i && s[i..][k] == x;
      assert Ordered(s, i, i + k) && Ordered(s, i - 1, i);
    }
    CountAll(s[..i], v);
    CountAll(s[i..], v);
    CountConcat(s[..i], s[i..], v);
  }

  function PointAt(s: seq<int>, i: nat): Point
    requires 0 < i <= |s|
  {
    Point(s[i - 1], 100.0 * i as real / |s| as real)
  }

  /** The points of the boundaries listed in `cuts`, which are all those up to `end`. */
  ghost predicate PointsOf(points: seq<Point>, s: seq<int>, cuts: seq<nat>, end: nat) {
    && |points| == |cuts| && (forall i, j :: 0 <= i < j < |cuts| ==> cuts[i] < cuts[j])
    && (forall k :: 0 <= k < |cuts| ==> Boundary(s, cuts[k]) && cuts[k] <= end && points[k] == PointAt(s, cuts[k]))
    && (forall b: nat :: b <= end && Boundary(s, b) ==> b in cuts)
  }

  lemma AddPoint(points: seq<Point>, s: seq<int>, cuts: seq<nat>, i: nat)
    requires 0 < i <= |s| && PointsOf(points, s, cuts, i - 1)
    ensures Boundary(s, i) ==> PointsOf(points + [PointAt(s, i)], s, cuts + [i], i)
    ensures !Boundary(s, i) ==> PointsOf(points, s, cuts, i)
  {
    if Boundary(s, i) {
      forall b: nat | b <= i && Boundary(s, b) ensures b in cuts + [i] { assert b < i ==> b in cuts; }
    }
  }

  /** The scan over the sorted values. */
  method DistinctPoints(s: seq<int>) returns (points: seq<Point>, ghost cuts: seq<nat>)
    requires s != []
    ensures PointsOf(points, s, cuts, |s|)
  {
    points, cuts := [], [];
    var curr := s[0];
    var i: nat := 1;
    while i < |s|
      invariant 1 <= i <= |s| && curr == s[i - 1] && PointsOf(points, s, cuts, i - 1)
    {
      AddPoint(points, s, cuts, i);
      if s[i] != curr {
        points := points + [Point(curr, 100.0 * i as real / |s| as real)];
        cuts := cuts + [i];
        curr := s[i];
      }
      i := i + 1;
    }
    WholePercentile(|s|);
    AddPoint(points, s, cuts, |s|);
    points := points + [Point(curr, 100.0)];
    cuts := cuts + [|s|];
  }

  lemma WholePercentile(n: nat)
    requires n > 0
    ensures 100.0 * n as real / n as real == 100.0
  {}

  lemma BoundariesRise(s: seq<int>, b: nat, c: nat)
    requires Sorted(s) && Boundary(s, b) && Boundary(s, c) && b < c
    ensures s[b - 1] < s[c - 1]
  {
    assert Ordered(s, b - 1, b) && Ordered(s, b, c - 1);
  }

  lemma {:induction false} NextBoundary(s: seq<int>, j: nat) returns (b: nat)
    requires j < |s|
    ensures Boundary(s, b) && s[b - 1] == s[j]
    decreases |s| - j
  {
    if j + 1 == |s| || s[j + 1] != s[j] { b := j + 1; } else { b := NextBoundary(s, j + 1); }
  }

  lemma PointIsPercentile(s: seq<int>, vals: seq<int>, b: nat)
    requires vals != [] && s == Sort(vals) && Boundary(s, b)
    ensures Percentile(PointAt(s, b), vals)
  {
    SortedCount(s, b);
    CountPermuted(s, vals, s[b - 1]);
    InPermutation(s, vals, b - 1);
  }

  lemma InPermutation(s: seq<int>, t: seq<int>, i: nat)
    requires multiset(s) == multiset(t) && i < |s|
    ensures s[i] in t && |s| == |t|
  {
    assert s[i] in multiset(s) && s[i] in multiset(t);
    assert |multiset(s)| == |s| && |multiset(t)| == |t|;
  }

  /** The distinct values in order, each with the percentage of values that are not larger. */
  method CdfCalc(vals: seq<int>) returns (points: seq<Point>)
    requires vals != []
    ensures points != [] && Rising(points)
    ensures forall k :: 0 <= k < |points| ==> Percentile(points[k], vals)
    ensures forall v :: v in vals ==> Listed(points, v)
  {
    var s := Sort(vals);
    ghost var cuts;
    points, cuts := DistinctPoints(s);
    forall i, j | 0 <= i < j < |points| ensures points[i].val < points[j].val { BoundariesRise(s, cuts[i], cuts[j]); }
    forall k | 0 <= k < |points| ensures Percentile(points[k], vals) { PointIsPercentile(s, vals, cuts[k]); }
    forall v | v in vals ensures Listed(points, v) { ValueListed(points, s, vals, cuts, v); }
    assert vals[0] in vals;
  }

  lemma ValueListed(points: seq<Point>, s: seq<int>, vals: seq<int>, cuts: seq<nat>, v: int)
    requires PointsOf(points, s, cuts, |s|) && multiset(s) == multiset(vals) && v in vals
    ensures Listed(points, v)
  {
    assert v in multiset(vals) && v in multiset(s) && v in s;
    var j :| 0 <= j < |s| && s[j] == v;
    var b := NextBoundary(s, j);
    var k :| 0 <= k < |cuts| && cuts[k] == b;
    assert points[k].val == v;
  }

  ghost predicate Listed(points: seq<Point>, v: int) {
    exists k :: 0 <= k < |points| && points[k].val == v
  }

  // -------------------------------------------------------------------- clusters

  datatype Cluster = Cluster(idx: nat, size: nat, valMin: int, valMax: int, median: int) {
    predicate Has(v: int) { valMin <= v <= valMax }
  }

  ghost predicate Increasing(vs: seq<int>) {
    forall i, j :: 0 <= i < j < |vs| ==> vs[i] < vs[j]
  }

  /** A new cluster starts at value i: the gap is larger than the sensitivity, or zero was before it. */
  predicate Break(vs: seq<int>, sens: int, i: nat)
    requires 0 < i < |vs|
  {
    vs[i] > vs[i - 1] + sens || (vs[i - 1] == 0 && vs[i] > 0)
  }

  /** Cluster c holds the values from index `start` up to `end`; only the first one reaches down to 0. */
  predicate ClusterIs(vs: seq<int>, cl: Cluster, c: nat, start: nat, end: nat)
    requires start < end <= |vs|
  {
    && cl.idx == c && cl.size == end - start && cl.median == vs[start + (end - start) / 2]
    && cl.valMin == (if c == 0 then 0 else vs[start]) && cl.valMax == vs[end - 1]
  }

  /** The starts of the finished clusters and of the one in progress: exactly the breaks before `end`. */
  ghost predicate StartsOk(vs: seq<int>, sens: int, starts: seq<nat>, end: nat) {
    && starts != [] && starts[0] == 0 && (forall i, j :: 0 <= i < j < |starts| ==> starts[i] < starts[j])
    && (forall k :: 0 < k < |starts| ==> 0 < starts[k] < |vs| && starts[k] < end && Break(vs, sens, starts[k]))
    && (forall i: nat :: 0 < i < end && i < |vs| && Break(vs, sens, i) ==> i in starts)
  }

  ghost function EndOf(starts: seq<nat>, c: nat, n: nat): nat
    requires c < |starts|
  {
    if c + 1 < |starts| then starts[c + 1] else n
  }

  ghost predicate ClustersOk(vs: seq<int>, clusters: seq<Cluster>, starts: seq<nat>, count: nat) {
    && count <= |clusters| && count <= |starts|
    && forall c :: 0 <= c < count ==> ClusterFrom(vs, clusters[c], starts, c)
  }

  ghost predicate ClusterFrom(vs: seq<int>, cl: Cluster, starts: seq<nat>, c: nat) {
    c < |starts| && starts[c] < EndOf(starts, c, |vs|) <= |vs|
        && ClusterIs(vs, cl, c, starts[c], EndOf(starts, c, |vs|))
  }

  /** The clusters of rising values at one sensitivity: they are the stretches between breaks. */
  ghost predicate ClustersOf(vs: seq<int>, sens: int, clusters: seq<Cluster>, starts: seq<nat>) {
    StartsOk(vs, sens, starts, |vs|) && |clusters| == |starts| && ClustersOk(vs, clusters, starts, |clusters|)
  }

  lemma CloseCluster(vs: seq<int>, sens: int, clusters: seq<Cluster>, starts: seq<nat>, i: nat, cl: Cluster)
    requires 0 < i < |vs| && StartsOk(vs, sens, starts, i) && Break(vs, sens, i)
    requires |clusters| + 1 == |starts| && ClustersOk(vs, clusters, starts, |clusters|) && starts[|clusters|] < i
    requires ClusterIs(vs, cl, |clusters|, starts[|clusters|], i)
    ensures StartsOk(vs, sens, starts + [i], i + 1)
    ensures ClustersOk(vs, clusters + [cl], starts + [i], |clusters| + 1)
  {
    var starts', clusters' := starts + [i], clusters + [cl];
    forall c | 0 <= c < |clusters'| ensures ClusterFrom(vs, clusters'[c], starts', c) {
      if c < |clusters| { assert ClusterFrom(vs, clusters[c], starts, c); }
    }
    forall j: nat | 0 < j < i + 1 && j < |vs| && Break(vs, sens, j) ensures j in starts' {
      if j < i { assert j in starts; }
    }
  }

  /** How many of the values before index k start a new cluster. */
  function Breaks(vs: seq<int>, sens: int, k: nat): nat
    requires 0 < k <= |vs|
  {
    if k == 1 then 0 else Breaks(vs, sens, k - 1) + (if Break(vs, sens, k - 1) then 1 else 0)
  }

  function ClusterCount(vs: seq<int>, sens: int): nat
    requires vs != []
  {
    1 + Breaks(vs, sens, |vs|)
  }

  /** The state of a pass before value i: the cluster in progress has its size, the index
      of its median and its minimum. */
  ghost predicate InScan(vs: seq<int>, sens: int, clusters: seq<Cluster>, starts: seq<nat>, i: nat,
                         size: nat, median: nat, pprevMin: int) {
    && 0 < i <= |vs| && StartsOk(vs, sens, starts, i) && |starts| == |clusters| + 1 == 1 + Breaks(vs, sens, i)
    && ClustersOk(vs, clusters, starts, |clusters|)
    && starts[|clusters|] + size == i && size > 0 && median == starts[|clusters|] + size / 2
    && pprevMin == if |clusters| == 0 then 0 else vs[starts[|clusters|]]
  }

  lemma ScanBreak(vs: seq<int>, sens: int, clusters: seq<Cluster>, starts: seq<nat>, i: nat,
                  size: nat, median: nat, pprevMin: int)
    requires InScan(vs, sens, clusters, starts, i, size, median, pprevMin) && i < |vs| && Break(vs, sens, i)
    ensures median < |vs|
    ensures InScan(vs, sens, clusters + [Cluster(|clusters|, size, pprevMin, vs[i - 1], vs[median])], starts + [i],
                   i + 1, 1, i, vs[i])
  {
    CloseCluster(vs, sens, clusters, starts, i, Cluster(|clusters|, size, pprevMin, vs[i - 1], vs[median]));
  }

  lemma ScanJoin(vs: seq<int>, sens: int, clusters: seq<Cluster>, starts: seq<nat>, i: nat,
                 size: nat, median: nat, pprevMin: int)
    requires InScan(vs, sens, clusters, starts, i, size, median, pprevMin) && i < |vs| && !Break(vs, sens, i)
    ensures InScan(vs, sens, clusters, starts, i + 1, size + 1, median + size % 2, pprevMin)
  {}

  lemma ScanStarts(vs: seq<int>, sens: int)
    requires vs != []
    ensures InScan(vs, sens, [], [0], 1, 1, 0, 0)
  {}

  /** One value of the pass: it starts a new cluster, or joins the one in progress. */
  method ScanPoint(vs: seq<int>, sens: int, clusters: seq<Cluster>, i: nat, size: nat, median: nat, pprevMin: int,
                   pprev: int,
                   ghost starts: seq<nat>)
    returns (clusters': seq<Cluster>, size': nat, median': nat, pprevMin': int, ghost starts': seq<nat>)
    requires InScan(vs, sens, clusters, starts, i, size, median, pprevMin) && i < |vs| && pprev == vs[i - 1]
    ensures InScan(vs, sens, clusters', starts', i + 1, size', median', pprevMin')
  {
    clusters', size', median', pprevMin', starts' := clusters, size, median, pprevMin, starts;
    if vs[i] > pprev + sens || (pprev == 0 && vs[i] > 0) {
      ScanBreak(vs, sens, clusters, starts, i, size, median, pprevMin);
      clusters' := clusters + [Cluster(|clusters|, size, pprevMin, vs[i - 1], vs[median])];
      starts' := starts + [i];
      pprevMin', median', size' := vs[i], i, 0;
    } else {
      ScanJoin(vs, sens, clusters, starts, i, size, median, pprevMin);
    }
    median' := median' + size' % 2;
    size' := size' + 1;
  }

  /** One pass over the points. */
  method ScanClusters(vs: seq<int>, sens: int) returns (clusters: seq<Cluster>, ghost starts: seq<nat>)
    requires vs != []
    ensures ClustersOf(vs, sens, clusters, starts) && |clusters| == ClusterCount(vs, sens)
    ensures Increasing(vs) && vs[0] >= 0 ==>
              forall i, c :: 0 < i < |vs| && 0 <= c < |clusters| && clusters[c].Has(vs[i - 1]) ==>
                (clusters[c].Has(vs[i]) <==> vs[i] - vs[i - 1] <= sens && vs[i - 1] != 0)
  {
    clusters, starts := [], [0];
    var pprev, pprevMin := vs[0], 0;
    var median: nat, clusterSize: nat := 0, 1;
    var i: nat := 1;
    ScanStarts(vs, sens);
    while i < |vs|
      invariant InScan(vs, sens, clusters, starts, i, clusterSize, median, pprevMin) && pprev == vs[i - 1]
    {
      clusters, clusterSize, median, pprevMin, starts :=
        ScanPoint(vs, sens, clusters, i, clusterSize, median, pprevMin, pprev, starts);
      pprev := vs[i];
      i := i + 1;
    }
    FinishScan(vs, sens, clusters, starts, clusterSize, median, pprevMin);
    clusters := clusters + [Cluster(|clusters|, clusterSize, pprevMin, vs[|vs| - 1], vs[median])];
    if Increasing(vs) && vs[0] >= 0 {
      forall i, c | 0 < i < |vs| && 0 <= c < |clusters| && clusters[c].Has(vs[i - 1])
        ensures clusters[c].Has(vs[i]) <==> vs[i] - vs[i - 1] <= sens && vs[i - 1] != 0
      {
        NeighboursTogether(vs, sens, clusters, starts, i, c);
      }
    }
  }

  lemma FinishScan(vs: seq<int>, sens: int, clusters: seq<Cluster>, starts: seq<nat>, size: nat, median: nat,
                   pprevMin: int)
    requires InScan(vs, sens, clusters, starts, |vs|, size, median, pprevMin)
    ensures median < |vs|
    ensures ClustersOf(vs, sens, clusters + [Cluster(|clusters|, size, pprevMin, vs[|vs| - 1], vs[median])], starts)
    ensures |clusters| + 1 == ClusterCount(vs, sens)
  {
    LastCluster(vs, clusters, starts, Cluster(|clusters|, size, pprevMin, vs[|vs| - 1], vs[median]));
  }

  lemma LastCluster(vs: seq<int>, clusters: seq<Cluster>, starts: seq<nat>, last: Cluster)
    requires |starts| == |clusters| + 1 && ClustersOk(vs, clusters, starts, |clusters|) && starts[|clusters|] < |vs|
    requires ClusterIs(vs, last, |clusters|, starts[|clusters|], |vs|)
    ensures ClustersOk(vs, clusters + [last], starts, |clusters| + 1)
  {
    forall c | 0 <= c < |clusters| + 1 ensures ClusterFrom(vs, (clusters + [last])[c], starts, c) {
      if c < |clusters| { assert ClusterFrom(vs, clusters[c], starts, c); }
    }
  }

  // --------------------------------------------------------- what clusters guarantee

  /** A cluster is a stretch of the values that begins where the one before ends: its number, range and size,
      and the value in its middle, the upper one of two. The first range reaches down to zero. */
  lemma ClusterFields(vs: seq<int>, sens: int, clusters: seq<Cluster>, starts: seq<nat>, c: nat)
    requires ClustersOf(vs, sens, clusters, starts) && c < |clusters|
    ensures |starts| == |clusters| && starts[0] == 0 && clusters[c].idx == c && clusters[c].size > 0
    ensures starts[c] + clusters[c].size == if c + 1 < |starts| then starts[c + 1] else |vs|
    ensures starts[c] + clusters[c].size <= |vs| && clusters[c].valMin == if c == 0 then 0 else vs[starts[c]]
    ensures clusters[c].valMax == vs[starts[c] + clusters[c].size - 1]
    ensures clusters[c].median == vs[starts[c] + clusters[c].size / 2]
  {
    assert ClusterFrom(vs, clusters[c], starts, c);
  }

  /** The cluster that a value falls into. */
  lemma {:induction false} ClusterOfValue(vs: seq<int>, sens: int, clusters: seq<Cluster>, starts: seq<nat>, i: nat,
                                          c: nat)
    returns (d: nat)
    requires ClustersOf(vs, sens, clusters, starts) && i < |vs| && c < |starts| && i < EndOf(starts, c, |vs|)
    ensures d < |starts| && starts[d] <= i < EndOf(starts, d, |vs|)
    decreases c
  {
    if starts[c] <= i { d := c; } else { d := ClusterOfValue(vs, sens, clusters, starts, i, c - 1); }
  }

  /** Clusters are ranges that do not meet, in the order of their values, and each holds its own median. */
  lemma ClustersApart(vs: seq<int>, sens: int, clusters: seq<Cluster>, starts: seq<nat>, c: nat, d: nat)
    requires Increasing(vs) && vs != [] && vs[0] >= 0 && ClustersOf(vs, sens, clusters, starts)
    requires c < d < |clusters|
    ensures clusters[c].valMax < clusters[d].valMin && clusters[c].median < clusters[d].median
  {
    assert ClusterFrom(vs, clusters[c], starts, c) && ClusterFrom(vs, clusters[d], starts, d);
    assert starts[c + 1] <= starts[d];
  }

  lemma MedianInside(vs: seq<int>, sens: int, clusters: seq<Cluster>, starts: seq<nat>, c: nat)
    requires Increasing(vs) && vs != [] && vs[0] >= 0 && ClustersOf(vs, sens, clusters, starts) && c < |clusters|
    ensures clusters[c].Has(clusters[c].median) && clusters[c].median in vs
    ensures clusters[c].median == vs[starts[c] + clusters[c].size / 2]
  {
    assert ClusterFrom(vs, clusters[c], starts, c);
  }

  /** Every measured value is in exactly one cluster. */
  lemma OneCluster(vs: seq<int>, sens: int, clusters: seq<Cluster>, starts: seq<nat>, v: int) returns (c: nat)
    requires Increasing(vs) && vs != [] && vs[0] >= 0 && ClustersOf(vs, sens, clusters, starts) && v in vs
    ensures c < |clusters| && clusters[c].Has(v)
    ensures forall d :: 0 <= d < |clusters| && clusters[d].Has(v) ==> d == c
  {
    var i :| 0 <= i < |vs| && vs[i] == v;
    c := ClusterOfValue(vs, sens, clusters, starts, i, |starts| - 1);
    assert ClusterFrom(vs, clusters[c], starts, c);
    forall d | 0 <= d < |clusters| && d != c ensures !clusters[d].Has(v) {
      if d < c {
        ClustersApart(vs, sens, clusters, starts, d, c);
      } else {
        ClustersApart(vs, sens, clusters, starts, c, d);
      }
    }
  }

  /** Two neighbouring values are in one cluster exactly when the larger one is within the sensitivity
      of the other, which is not zero. */
  lemma NeighboursTogether(vs: seq<int>, sens: int, clusters: seq<Cluster>, starts: seq<nat>, i: nat, c: nat)
    requires Increasing(vs) && vs != [] && vs[0] >= 0 && ClustersOf(vs, sens, clusters, starts)
    requires 0 < i < |vs| && c < |clusters| && clusters[c].Has(vs[i - 1])
    ensures clusters[c].Has(vs[i]) <==> vs[i] - vs[i - 1] <= sens && vs[i - 1] != 0
  {
    var d := OneCluster(vs, sens, clusters, starts, vs[i - 1]);
    var e := ClusterOfValue(vs, sens, clusters, starts, i - 1, |starts| - 1);
    assert ClusterFrom(vs, clusters[e], starts, e) && clusters[e].Has(vs[i - 1]) && c == d == e;
    var end := EndOf(starts, c, |vs|);
    assert i < end ==> clusters[c].Has(vs[i]);
    assert i == end ==> vs[i] > clusters[c].valMax;
    if i == end { assert starts[c + 1] == i; }
    if i < end { NotAStart(starts, c, i, |vs|); }
  }

  lemma NotAStart(starts: seq<nat>, c: nat, i: nat, n: nat)
    requires (forall a, b :: 0 <= a < b < |starts| ==> starts[a] < starts[b])
    requires c < |starts| && starts[c] < i < EndOf(starts, c, n)
    ensures i !in starts
  {
    forall k | 0 <= k < |starts| ensures starts[k] != i {
      if k > c + 1 { assert starts[c + 1] < starts[k]; }
      if k < c { assert starts[k] < starts[c]; }
    }
  }

  /** The median of the first cluster that holds the value; 0, with an error message, if none does. */
  function Normalise(clusters: seq<Cluster>, v: int): int {
    if clusters == [] then 0
    else if clusters[0].Has(v) then clusters[0].median
    else Normalise(clusters[1..], v)
  }

  /** A value in none of the clusters becomes 0. */
  lemma {:induction false} OutsideIsZero(clusters: seq<Cluster>, v: int)
    requires forall c :: 0 <= c < |clusters| ==> !clusters[c].Has(v)
    ensures Normalise(clusters, v) == 0
  {
    if clusters != [] { OutsideIsZero(clusters[1..], v); }
  }

  method ValueToClusterMedian(clusters: seq<Cluster>, v: int) returns (median: int)
    ensures median == Normalise(clusters, v)
  {
    var i := 0;
    assert clusters[0..] == clusters;
    while i < |clusters|
      invariant 0 <= i <= |clusters| && Normalise(clusters[i..], v) == Normalise(clusters, v)
    {
      assert clusters[i..][1..] == clusters[i + 1..];
      if clusters[i].Has(v) { return clusters[i].median; }
      i := i + 1;
    }
    median := 0;
  }

  lemma {:induction false} NormaliseIs(clusters: seq<Cluster>, v: int, c: nat)
    requires c < |clusters| && clusters[c].Has(v) && forall d :: 0 <= d < |clusters| && clusters[d].Has(v) ==> d == c
    ensures Normalise(clusters, v) == clusters[c].median
  {
    if c > 0 {
      var rest := clusters[1..];
      forall d | 0 <= d < |rest| && rest[d].Has(v) ensures d == c - 1 { assert clusters[d + 1].Has(v); }
      assert !clusters[0].Has(v);
      NormaliseIs(rest, v, c - 1);
    }
  }

  /** Normalised latencies are in the order of the measured ones, and normalising twice
      changes nothing. */
  lemma NormaliseIsMonotone(vs: seq<int>, sens: int, clusters: seq<Cluster>, starts: seq<nat>, v: int, w: int)
    requires Increasing(vs) && vs != [] && vs[0] >= 0 && ClustersOf(vs, sens, clusters, starts)
    requires v in vs && w in vs && v <= w
    ensures Normalise(clusters, v) <= Normalise(clusters, w)
  {
    var c := OneCluster(vs, sens, clusters, starts, v);
    var d := OneCluster(vs, sens, clusters, starts, w);
    NormaliseIs(clusters, v, c);
    NormaliseIs(clusters, w, d);
    if c < d { ClustersApart(vs, sens, clusters, starts, c, d); }
    if d < c { ClustersApart(vs, sens, clusters, starts, d, c); }
  }

  lemma NormaliseIsIdempotent(vs: seq<int>, sens: int, clusters: seq<Cluster>, starts: seq<nat>, v: int)
    requires Increasing(vs) && vs != [] && vs[0] >= 0 && ClustersOf(vs, sens, clusters, starts) && v in vs
    ensures Normalise(clusters, v) in vs
    ensures Normalise(clusters, Normalise(clusters, v)) == Normalise(clusters, v)
  {
    var c := OneCluster(vs, sens, clusters, starts, v);
    NormaliseIs(clusters, v, c);
    MedianInside(vs, sens, clusters, starts, c);
    var m := clusters[c].median;
    var d := OneCluster(vs, sens, clusters, starts, m);
    NormaliseIs(clusters, m, d);
  }

  // ------------------------------------------------------- searching a sensitivity

  /** The retry loop between passes: the sign of the last miss and the next sensitivity. */
  datatype Search = Searching(direction: int, sensitivity: int) | Found(at: int) | NotFound

  function Pass(vs: seq<int>, target: nat, s: Search): Search
    requires vs != []
  {
    if !s.Searching? then s
    else
      var n := ClusterCount(vs, s.sensitivity);
      if target != 0 && n != target then
        var dir := target - n;
        var stop := (s.direction < 0 && dir > 0) || (s.direction > 0 && dir < 0);
        if s.sensitivity - dir > 0 && !stop then Searching(dir, s.sensitivity - dir) else NotFound
      else Found(s.sensitivity)
  }

  function Passes(vs: seq<int>, target: nat, s: Search, k: nat): Search
    requires vs != []
    decreases k
  {
    if k == 0 then s else Passes(vs, target, Pass(vs, target, s), k - 1)
  }

  /** The one case in which the loop never ends: a single cluster is asked for, but zero
      always has a cluster of its own. */
  predicate Endless(vs: seq<int>, target: nat) {
    target == 1 && |vs| > 1 && vs[0] == 0
  }

  lemma {:induction false} WideBreaks(vs: seq<int>, sens: int, k: nat)
    requires Increasing(vs) && 0 < k <= |vs| && vs[0] >= 0 && sens >= vs[|vs| - 1]
    ensures Breaks(vs, sens, k) == if vs[0] == 0 && k > 1 then 1 else 0
  {
    if k > 1 {
      WideBreaks(vs, sens, k - 1);
      assert k - 1 < |vs| - 1 ==> vs[k - 1] < vs[|vs| - 1];
      assert k > 2 ==> vs[0] < vs[k - 2];
      assert vs[k - 2] < vs[k - 1];
    }
  }

  lemma {:induction false} ZeroBreaks(vs: seq<int>, sens: int, k: nat)
    requires Increasing(vs) && 1 < k <= |vs| && vs[0] == 0
    ensures Breaks(vs, sens, k) >= 1
  {
    if k > 2 { ZeroBreaks(vs, sens, k - 1); } else { assert Break(vs, sens, 1); }
  }

  /** Progress of the search: down while clusters are too few, up while they are too many. */
  function Rank(vs: seq<int>, s: Search): nat
    requires vs != [] && s.Searching?
  {
    if s.direction > 0 then (if s.sensitivity > 0 then s.sensitivity else 0)
    else (if vs[|vs| - 1] > s.sensitivity then vs[|vs| - 1] - s.sensitivity else 0)
  }

  lemma PassProgresses(vs: seq<int>, target: nat, s: Search)
    requires vs != [] && Increasing(vs) && vs[0] >= 0 && !Endless(vs, target)
    requires s.Searching? && s.direction != 0
    ensures var s' := Pass(vs, target, s); s'.Searching? ==> s'.direction != 0 && Rank(vs, s') < Rank(vs, s)
    ensures var s' := Pass(vs, target, s); s'.Searching? ==> (s'.direction > 0 <==> s.direction > 0)
  {
    if s.sensitivity >= vs[|vs| - 1] { WideBreaks(vs, s.sensitivity, |vs|); }
  }

  lemma {:induction false} SearchEnds(vs: seq<int>, target: nat, s: Search) returns (k: nat)
    requires vs != [] && Increasing(vs) && vs[0] >= 0 && !Endless(vs, target)
    requires s.Searching? ==> s.direction != 0
    ensures !Passes(vs, target, s, k).Searching?
    decreases if s.Searching? then Rank(vs, s) + 1 else 0
  {
    if s.Searching? {
      PassProgresses(vs, target, s);
      var j := SearchEnds(vs, target, Pass(vs, target, s));
      k := j + 1;
    } else {
      k := 0;
    }
  }

  lemma {:induction false} SearchGoesOn(vs: seq<int>, target: nat, s: Search, k: nat)
    requires Increasing(vs) && Endless(vs, target) && s.Searching? && s.direction <= 0 && s.sensitivity >= 0
    ensures Passes(vs, target, s, k).Searching?
    decreases k
  {
    if k > 0 {
      ZeroBreaks(vs, s.sensitivity, |vs|);
      SearchGoesOn(vs, target, Pass(vs, target, s), k - 1);
    }
  }

  /** One cluster of the values 0 and 5: no number of passes ends the search. */
  lemma ZeroAndFive(sens: nat, k: nat)
    ensures Passes([0, 5], 1, Searching(0, sens), k).Searching?
  {
    SearchGoesOn([0, 5], 1, Searching(0, sens), k);
  }

  /** The retry loop ends exactly when it is not asked for one cluster of values among which is zero. */
  lemma SearchEndsExactly(vs: seq<int>, sens: nat, target: nat)
    requires vs != [] && Increasing(vs) && vs[0] >= 0
    ensures (exists k :: !Passes(vs, target, Searching(0, sens), k).Searching?) <==> !Endless(vs, target)
  {
    var s := Searching(0, sens);
    if Endless(vs, target) {
      forall k: nat ensures Passes(vs, target, s, k).Searching? { SearchGoesOn(vs, target, s, k); }
    } else {
      var s' := Pass(vs, target, s);
      var k := SearchEnds(vs, target, s');
      assert Passes(vs, target, s, k + 1) == Passes(vs, target, s', k);
    }
  }

  lemma {:induction false} PassesMore(vs: seq<int>, target: nat, s: Search, k: nat)
    requires vs != []
    ensures Passes(vs, target, s, k + 1) == Pass(vs, target, Passes(vs, target, s, k))
    decreases k
  {
    if k > 0 { PassesMore(vs, target, Pass(vs, target, s), k - 1); }
  }

  ghost predicate Clustered(vs: seq<int>, sens: int, clusters: seq<Cluster>)
    requires vs != []
  {
    |clusters| == ClusterCount(vs, sens) && exists starts :: ClustersOf(vs, sens, clusters, starts)
  }

  /** How many clusters a pass misses. */
  function Missing(target: nat, found: seq<seq<Cluster>>, k: nat): int
    requires k < |found|
  {
    target - |found[k]|
  }

  /** The passes so far: each sensitivity is the one before, corrected by what was missing. */
  ghost predicate Corrected(vs: seq<int>, target: nat, tried: seq<int>, found: seq<seq<Cluster>>)
    requires vs != []
  {
    && |found| == |tried|
    && (forall k :: 0 <= k < |tried| ==> Clustered(vs, tried[k], found[k]))
    && forall k :: 0 < k < |tried| ==> Follows(target, tried, found, k)
  }

  /** Sensitivity k is the one before, less the number of clusters that pass missed. */
  ghost predicate Follows(target: nat, tried: seq<int>, found: seq<seq<Cluster>>, k: nat) {
    0 < k < |tried| == |found| && tried[k] == tried[k - 1] - (target - |found[k - 1]|) && tried[k] > 0
  }

  /** In the first n passes something is missing, or too much: always the same of the two. */
  ghost predicate OneWay(target: nat, found: seq<seq<Cluster>>, n: nat) {
    && n <= |found| && (n > 0 ==> target != 0)
    && (forall k :: 0 <= k < n ==> Missing(target, found, k) != 0)
    && forall j, k :: 0 <= j < k < n ==> (Missing(target, found, k) > 0 <==> Missing(target, found, j) > 0)
  }

  /** The sensitivities tried are those of the passes. */
  lemma {:induction false} TriedArePasses(vs: seq<int>, target: nat, tried: seq<int>, found: seq<seq<Cluster>>, k: nat)
    requires vs != [] && k < |tried| && Corrected(vs, target, tried, found) && OneWay(target, found, |found| - 1)
    ensures Passes(vs, target, Searching(0, tried[0]), k)
         == Searching(if k == 0 then 0 else Missing(target, found, k - 1), tried[k])
    decreases k
  {
    if k > 0 {
      TriedArePasses(vs, target, tried, found, k - 1);
      PassesMore(vs, target, Searching(0, tried[0]), k - 1);
      assert Clustered(vs, tried[k - 1], found[k - 1]) && Missing(target, found, k - 1) != 0;
      assert Follows(target, tried, found, k);
      assert k > 1 ==> (Missing(target, found, k - 1) > 0 <==> Missing(target, found, k - 2) > 0);
    }
  }

  /** What a finished search has tried, and why it stopped. */
  ghost predicate Ended(vs: seq<int>, sens: nat, target: nat, tried: seq<int>, found: seq<seq<Cluster>>,
                        cc: Option<seq<Cluster>>)
    requires vs != []
  {
    && tried != [] && tried[0] == sens && Corrected(vs, target, tried, found) && OneWay(target, found, |found| - 1)
    && var last := |tried| - 1;
       if target == 0 || |found[last]| == target then cc == Some(found[last])
       else cc == None && (tried[last] - Missing(target, found, last) <= 0 || !OneWay(target, found, |found|))
  }

  lemma EndIsOfPasses(vs: seq<int>, sens: nat, target: nat, tried: seq<int>, found: seq<seq<Cluster>>,
                      cc: Option<seq<Cluster>>)
    requires vs != [] && Ended(vs, sens, target, tried, found, cc)
    ensures Passes(vs, target, Searching(0, sens), |tried|) == if cc.Some? then Found(tried[|tried| - 1]) else NotFound
  {
    var last := |tried| - 1;
    TriedArePasses(vs, target, tried, found, last);
    PassesMore(vs, target, Searching(0, sens), last);
    assert Clustered(vs, tried[last], found[last]);
    if cc == None && tried[last] - Missing(target, found, last) > 0 { TurnedAround(target, found, last); }
  }

  lemma TurnedAround(target: nat, found: seq<seq<Cluster>>, last: nat)
    requires last + 1 == |found| && OneWay(target, found, last) && !OneWay(target, found, last + 1)
    requires target != 0 && Missing(target, found, last) != 0
    ensures last > 0 && (Missing(target, found, last) > 0 <==> Missing(target, found, last - 1) < 0)
  {}

  lemma OnePassMore(vs: seq<int>, target: nat, tried: seq<int>, found: seq<seq<Cluster>>, sens: int,
                    clusters: seq<Cluster>)
    requires vs != [] && Corrected(vs, target, tried, found) && Clustered(vs, sens, clusters)
    requires |tried| > 0 ==> sens == tried[|tried| - 1] - Missing(target, found, |tried| - 1) && sens > 0
    ensures Corrected(vs, target, tried + [sens], found + [clusters])
  {
    var tried', found' := tried + [sens], found + [clusters];
    forall k | 0 <= k < |tried'| ensures Clustered(vs, tried'[k], found'[k]) {
      if k < |tried| { assert Clustered(vs, tried[k], found[k]); }
    }
    forall k | 0 < k < |tried'| ensures Follows(target, tried', found', k) {
      if k < |tried| { assert Follows(target, tried, found, k); }
    }
  }

  lemma OneWayMore(target: nat, found: seq<seq<Cluster>>, clusters: seq<Cluster>)
    requires OneWay(target, found, |found|)
    ensures OneWay(target, found + [clusters], |found|)
    ensures target != 0 && |clusters| != target
            && (|found| > 0 ==> (target > |clusters| <==> Missing(target, found, |found| - 1) > 0)) <==>
            OneWay(target, found + [clusters], |found| + 1)
  {
    var found', n := found + [clusters], |found|;
    assert forall k :: 0 <= k < n ==> Missing(target, found', k) == Missing(target, found, k);
    assert Missing(target, found', n) == target - |clusters|;
  }

  /** The clustering with retries: a result has the requested number of clusters, or any number
      when none is requested. `tried` are the sensitivities of the passes and `found` their clusters.
      The search gives up when the corrections change their sign or the next sensitivity is not
      positive. */
  method CdfCluster(vs: seq<int>, sens: nat, target: nat)
    returns (cc: Option<seq<Cluster>>, ghost tried: seq<int>, ghost found: seq<seq<Cluster>>)
    requires vs != [] && Increasing(vs) && vs[0] >= 0 && !Endless(vs, target)
    ensures |tried| == |found| > 0 && tried[0] == sens
    ensures forall k :: 0 <= k < |tried| ==> Clustered(vs, tried[k], found[k])
    ensures forall k :: 0 < k < |tried| ==> Follows(target, tried, found, k)
    ensures forall k :: 0 <= k < |tried| - 1 ==> target != 0 && |found[k]| != target
    ensures forall j, k :: 0 <= j < k < |tried| - 1 ==> (target > |found[k]| <==> target > |found[j]|)
    ensures cc.Some? <==> target == 0 || |found[|found| - 1]| == target
    ensures cc.Some? ==> cc.value == found[|found| - 1]
    ensures cc.None? ==> var last := |tried| - 1;
                         || tried[last] - (target - |found[last]|) <= 0
                         || (last > 0 && !(target > |found[last]| <==> target > |found[last - 1]|))
    ensures Passes(vs, target, Searching(0, sens), |tried|) == if cc.Some? then Found(tried[|tried| - 1]) else NotFound
  {
    cc, tried, found := SearchClusters(vs, sens, target);
    EndIsOfPasses(vs, sens, target, tried, found, cc);
    OneWayInWords(target, found, |found| - 1);
    if cc.None? { GivesUpInWords(vs, sens, target, tried, found); }
  }

  lemma OneWayInWords(target: nat, found: seq<seq<Cluster>>, n: nat)
    requires OneWay(target, found, n)
    ensures forall k :: 0 <= k < n ==> target != 0 && |found[k]| != target
    ensures forall j, k :: 0 <= j < k < n ==> (target > |found[k]| <==> target > |found[j]|)
  {
    forall k | 0 <= k < n ensures target != 0 && |found[k]| != target { assert Missing(target, found, k) != 0; }
    forall j, k | 0 <= j < k < n ensures target > |found[k]| <==> target > |found[j]| {
      assert Missing(target, found, k) > 0 <==> Missing(target, found, j) > 0;
    }
  }

  lemma GivesUpInWords(vs: seq<int>, sens: nat, target: nat, tried: seq<int>, found: seq<seq<Cluster>>)
    requires vs != [] && Ended(vs, sens, target, tried, found, None)
    ensures var last := |tried| - 1;
            || tried[last] - (target - |found[last]|) <= 0
            || (last > 0 && !(target > |found[last]| <==> target > |found[last - 1]|))
  {
    var last := |tried| - 1;
    if tried[last] - Missing(target, found, last) > 0 { TurnedAround(target, found, last); }
  }

  /** The search before its next pass. */
  ghost predicate Trying(vs: seq<int>, sens: nat, target: nat, tried: seq<int>, found: seq<seq<Cluster>>,
                         direction: int, sensitivity: int)
    requires vs != []
  {
    && Corrected(vs, target, tried, found) && OneWay(target, found, |found|)
    && (tried == [] <==> direction == 0) && (tried == [] ==> sensitivity == sens)
    && (tried != [] ==>
          (&& tried[0] == sens && direction == Missing(target, found, |found| - 1)
           && sensitivity == tried[|tried| - 1] - direction > 0))
  }

  lemma PassDone(vs: seq<int>, sens: nat, target: nat, tried: seq<int>, found: seq<seq<Cluster>>,
                 direction: int, sensitivity: int, clusters: seq<Cluster>, dir: int)
    requires vs != [] && Trying(vs, sens, target, tried, found, direction, sensitivity)
    requires Clustered(vs, sensitivity, clusters) && dir == target - |clusters|
    ensures target == 0 || dir == 0 ==>
              Ended(vs, sens, target, tried + [sensitivity], found + [clusters], Some(clusters))
    ensures target != 0 && dir != 0 ==>
              if sensitivity - dir > 0 && (direction == 0 || (direction > 0 <==> dir > 0))
              then Trying(vs, sens, target, tried + [sensitivity], found + [clusters], dir, sensitivity - dir)
              else Ended(vs, sens, target, tried + [sensitivity], found + [clusters], None)
  {
    OnePassMore(vs, target, tried, found, sensitivity, clusters);
    OneWayMore(target, found, clusters);
  }

  method SearchClusters(vs: seq<int>, sens: nat, target: nat)
    returns (cc: Option<seq<Cluster>>, ghost tried: seq<int>, ghost found: seq<seq<Cluster>>)
    requires vs != [] && Increasing(vs) && vs[0] >= 0 && !Endless(vs, target)
    ensures Ended(vs, sens, target, tried, found, cc)
  {
    var direction, stop, sensitivity: int := 0, false, sens;
    cc, tried, found := None, [], [];
    while true
      invariant Trying(vs, sens, target, tried, found, direction, sensitivity)
      decreases direction == 0, Rank(vs, Searching(direction, sensitivity))
    {
      if direction != 0 { PassProgresses(vs, target, Searching(direction, sensitivity)); }
      var clusters;
      ghost var starts;
      clusters, starts := ScanClusters(vs, sensitivity);
      assert Clustered(vs, sensitivity, clusters);
      PassDone(vs, sens, target, tried, found, direction, sensitivity, clusters, target - |clusters|);
      tried, found := tried + [sensitivity], found + [clusters];
      if target == 0 || |clusters| == target {
        cc := Some(clusters);
        return;
      }
      var dir := target - |clusters|;
      stop := (direction < 0 && dir > 0) || (direction > 0 && dir < 0);
      direction := dir;
      sensitivity := sensitivity - dir;
      if !(sensitivity > 0 && !stop) { return; }
    }
  }

  // ------------------------------------------------------------------ two examples

  /** Values 0, 30, 36, 42 and 300 with sensitivity 5: no two are together. */
  lemma FiveClusters()
    ensures ClusterCount([0, 30, 36, 42, 300], 5) == 5
  {
    var vs := [0, 30, 36, 42, 300];
    assert Breaks(vs, 5, 2) == 1;
    assert Breaks(vs, 5, 3) == 2;
    assert Breaks(vs, 5, 4) == 3;
  }

  /** Four clusters of 0, 10, 14 and 30, starting with sensitivity 5: the third pass finds them. */
  lemma FourClusters()
    ensures Passes([0, 10, 14, 30], 4, Searching(0, 5), 3) == Found(3)
  {
    var vs := [0, 10, 14, 30];
    assert Breaks(vs, 5, 2) == 1 && Breaks(vs, 5, 3) == 1 && Breaks(vs, 5, 4) == 2;
    assert Breaks(vs, 4, 2) == 1 && Breaks(vs, 4, 3) == 1 && Breaks(vs, 4, 4) == 2;
    assert Breaks(vs, 3, 2) == 1 && Breaks(vs, 3, 3) == 2 && Breaks(vs, 3, 4) == 3;
    assert Pass(vs, 4, Searching(0, 5)) == Searching(1, 4);
    assert Pass(vs, 4, Searching(1, 4)) == Searching(1, 3);
    assert Pass(vs, 4, Searching(1, 3)) == Found(3);
    PassesMore(vs, 4, Searching(0, 5), 0);
    PassesMore(vs, 4, Searching(0, 5), 1);
    PassesMore(vs, 4, Searching(0, 5), 2);
  }
}
