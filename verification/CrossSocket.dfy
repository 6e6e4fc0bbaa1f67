/** The keys held by the nodes of a level, and what merging the pairs of a level
    does to them. */
module CrossSocket {
  import opened SortedSeqs
  import opened NodeTrees

  /** All keys of the listed nodes; runs[x] are the keys of node x. */
  ghost function KeysOf(runs: seq<seq<int>>, ns: seq<nat>): multiset<int>
    requires Below(ns, |runs|)
  {
    if ns == [] then multiset{}
    else
      var k := |ns| - 1;
      assert ns[k] in ns;
      assert forall x :: x in ns[..k] ==> x in ns;
      KeysOf(runs, ns[..k]) + multiset(runs[ns[k]])
  }

  lemma KeysOfAppend(runs: seq<seq<int>>, ns: seq<nat>, x: nat)
    requires Below(ns, |runs|) && x < |runs|
    ensures Below(ns + [x], |runs|) && KeysOf(runs, ns + [x]) == KeysOf(runs, ns) + multiset(runs[x])
  {
    assert (ns + [x])[..|ns|] == ns;
  }

  lemma Shift(a: multiset<int>, b: multiset<int>, c: multiset<int>)
    ensures (a + b) + c == (a + c) + b
  {}

  lemma PartsBelow(ns: seq<nat>, p: nat, n: nat)
    requires Below(ns, n) && p < |ns|
    ensures Below(ns[..p], n) && Below(ns[p + 1..], n) && Below(ns[..p] + ns[p + 1..], n) && ns[p] < n
  {
    var before, after := ns[..p], ns[p + 1..];
    assert ns[p] in ns;
    forall x | x in before ensures x < n { assert x in ns; }
    forall x | x in after ensures x < n { assert x in ns; }
    forall x | x in before + after ensures x < n { assert x in before || x in after; }
  }

  /** Taking a node out of the list takes its keys out. */
  lemma {:induction false} KeysOfRemove(runs: seq<seq<int>>, ns: seq<nat>, p: nat)
    requires Below(ns, |runs|) && p < |ns|
    ensures Below(ns[..p] + ns[p + 1..], |runs|) && ns[p] < |runs|
    ensures KeysOf(runs, ns) == KeysOf(runs, ns[..p] + ns[p + 1..]) + multiset(runs[ns[p]])
    decreases |ns|, 0
  {
    var k := |ns| - 1;
    PartsBelow(ns, p, |runs|);
    PartsBelow(ns, k, |runs|);
    if p == k {
      assert ns[..p] + ns[p + 1..] == ns[..k];
    } else {
      RemoveInner(runs, ns[..k], ns[k], p);
      assert ns == ns[..k] + [ns[k]];
      assert (ns[..k][..p] + ns[..k][p + 1..]) + [ns[k]] == ns[..p] + ns[p + 1..];
    }
  }

  lemma {:induction false} RemoveInner(runs: seq<seq<int>>, rest: seq<nat>, last: nat, p: nat)
    requires Below(rest, |runs|) && last < |runs| && p < |rest|
    ensures rest[p] < |runs| && Below(rest + [last], |runs|) && Below((rest[..p] + rest[p + 1..]) + [last], |runs|)
    ensures KeysOf(runs, rest + [last]) == KeysOf(runs, (rest[..p] + rest[p + 1..]) + [last]) + multiset(runs[rest[p]])
    decreases |rest|, 1
  {
    KeysOfRemove(runs, rest, p);
    var r := rest[..p] + rest[p + 1..];
    KeysOfAppend(runs, rest, last);
    KeysOfAppend(runs, r, last);
    Shift(KeysOf(runs, r), multiset(runs[rest[p]]), multiset(runs[last]));
  }

  lemma RemoveOne(xs: seq<nat>, ys: seq<nat>, p: nat)
    requires xs != [] && p < |ys| && ys[p] == xs[|xs| - 1] && multiset(xs) == multiset(ys)
    ensures multiset(xs[..|xs| - 1]) == multiset(ys[..p] + ys[p + 1..])
  {
    assert xs == xs[..|xs| - 1] + [xs[|xs| - 1]];
    assert ys == ys[..p] + [ys[p]] + ys[p + 1..];
    assert multiset(xs[..|xs| - 1]) == multiset(xs) - multiset{ys[p]};
    assert multiset(ys[..p] + ys[p + 1..]) == multiset(ys) - multiset{ys[p]};
  }

  /** The order of the nodes does not matter. */
  lemma {:induction false} KeysOfOrder(runs: seq<seq<int>>, xs: seq<nat>, ys: seq<nat>)
    requires Below(xs, |runs|) && Below(ys, |runs|) && multiset(xs) == multiset(ys)
    ensures KeysOf(runs, xs) == KeysOf(runs, ys)
    decreases |xs|
  {
    if xs == [] {
      assert |multiset(ys)| == |ys|;
    } else {
      var k := |xs| - 1;
      assert xs[k] in multiset(xs) && xs[k] in ys;
      var p :| 0 <= p < |ys| && ys[p] == xs[k];
      RemoveOne(xs, ys, p);
      KeysOfRemove(runs, ys, p);
      assert forall x :: x in xs[..k] ==> x in xs;
      KeysOfOrder(runs, xs[..k], ys[..p] + ys[p + 1..]);
    }
  }

  /** After its level, every destination holds the merge of its pair. */
  ghost predicate PairMerged(runs: seq<seq<int>>, runs': seq<seq<int>>, pair: Pair) {
    && pair.left < |runs| && pair.right < |runs| && pair.left < |runs'|
    && runs'[pair.left] == Merge(runs[pair.left], runs[pair.right])
  }

  lemma SubBelow(level: Level, p: nat, n: nat)
    requires Below(Nodes(level), n) && p <= |level|
    ensures Below(NodesOf(level, p), n) && Below(LeftsOf(level, p), n)
  {
    forall x | x in NodesOf(level, p) ensures x < n {
      NodeInPair(level, p, x);
      NodeInPair(level, |level|, x);
    }
    forall x | x in LeftsOf(level, p) ensures x < n {
      var q :| 0 <= q < p && LeftsOf(level, p)[q] == x;
      assert level[q].Has(x);
      NodeInPair(level, |level|, x);
    }
  }

  lemma {:induction false} LevelKeys(runs: seq<seq<int>>, runs': seq<seq<int>>, level: Level, p: nat)
    requires |runs'| == |runs| && Below(Nodes(level), |runs|) && p <= |level|
    requires forall q :: 0 <= q < p ==> PairMerged(runs, runs', level[q])
    ensures Below(NodesOf(level, p), |runs|) && Below(LeftsOf(level, p), |runs|)
    ensures KeysOf(runs', LeftsOf(level, p)) == KeysOf(runs, NodesOf(level, p))
  {
    SubBelow(level, p, |runs|);
    if p > 0 {
      var pair := level[p - 1];
      LevelKeys(runs, runs', level, p - 1);
      assert PairMerged(runs, runs', pair);
      MergeMultiset(runs[pair.left], runs[pair.right]);
      KeysOfAppend(runs', LeftsOf(level, p - 1), pair.left);
      KeysOfAppend(runs, NodesOf(level, p - 1), pair.left);
      KeysOfAppend(runs, NodesOf(level, p - 1) + [pair.left], pair.right);
      assert NodesOf(level, p - 1) + [pair.left] + [pair.right] == NodesOf(level, p);
      Shift3(KeysOf(runs, NodesOf(level, p - 1)), multiset(runs[pair.left]), multiset(runs[pair.right]));
    }
  }

  lemma Shift3(a: multiset<int>, b: multiset<int>, c: multiset<int>)
    ensures (a + b) + c == a + (b + c)
  {}

  /** Merging a level hands all its keys to the nodes of the level above. */
  lemma KeysMoveUp(runs: seq<seq<int>>, runs': seq<seq<int>>, deeper: Level, level: Level)
    requires |runs'| == |runs| && Below(Nodes(deeper), |runs|) && Below(Nodes(level), |runs|) && LeadsTo(deeper, level)
    requires forall q :: 0 <= q < |deeper| ==> PairMerged(runs, runs', deeper[q])
    ensures KeysOf(runs', Nodes(level)) == KeysOf(runs, Nodes(deeper))
  {
    LevelKeys(runs, runs', deeper, |deeper|);
    KeysOfOrder(runs', Lefts(deeper), Nodes(level));
  }

  lemma PairAdds(runs: seq<seq<int>>, level: Level, p: nat)
    requires 0 < p <= |level| && Below(NodesOf(level, p), |runs|)
    ensures level[p - 1].left < |runs| && level[p - 1].right < |runs| && Below(NodesOf(level, p - 1), |runs|)
    ensures |KeysOf(runs, NodesOf(level, p))|
         == |KeysOf(runs, NodesOf(level, p - 1))| + |runs[level[p - 1].left]| + |runs[level[p - 1].right]|
  {
    var last, ns := level[p - 1], NodesOf(level, p - 1);
    assert NodesOf(level, p) == ns + [last.left] + [last.right];
    assert last.left in NodesOf(level, p) && last.right in NodesOf(level, p);
    assert forall x :: x in ns ==> x in NodesOf(level, p);
    KeysOfAppend(runs, ns, last.left);
    KeysOfAppend(runs, ns + [last.left], last.right);
  }

  /** No pair of a level holds more keys than the level. */
  lemma {:induction false} PairFits(runs: seq<seq<int>>, level: Level, p: nat, q: nat)
    requires q < p <= |level| && Below(NodesOf(level, p), |runs|)
    ensures level[q].left < |runs| && level[q].right < |runs|
    ensures |runs[level[q].left]| + |runs[level[q].right]| <= |KeysOf(runs, NodesOf(level, p))|
  {
    PairAdds(runs, level, p);
    if q < p - 1 { PairFits(runs, level, p - 1, q); }
  }
}
