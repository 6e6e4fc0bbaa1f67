/** The order in which a queue's threads look for work elsewhere. */
module StealOrder {
  import opened FiniteSets
  import opened SortProtocol

  /** Socket at distance j from socket i, counting around. */
  function Around(i: nat, j: nat, n: nat): nat
    requires i < n && j < n
  {
    (i + j) % n
  }

  lemma AroundIs(i: nat, j: nat, n: nat)
    requires i < n && j < n
    ensures Around(i, j, n) == if i + j < n then i + j else i + j - n
  {}

  /** The distance at which socket x comes. */
  function Distance(i: nat, x: nat, n: nat): (j: nat)
    requires i < n && x < n
    ensures j < n && Around(i, j, n) == x
  {
    AroundIs(i, if x >= i then x - i else x + n - i, n);
    if x >= i then x - i else x + n - i
  }

  lemma AroundDiffers(i: nat, j: nat, k: nat, n: nat)
    requires i < n && j < n && k < n && Around(i, j, n) == Around(i, k, n)
    ensures j == k
  {
    AroundIs(i, j, n);
    AroundIs(i, k, n);
  }

  // ------------------------------------------------------------------- sorted indexes

  /** n different indexes below n. */
  ghost predicate Indexes(s: seq<nat>, n: nat) {
    |s| == n && (forall p :: 0 <= p < n ==> s[p] < n) && forall p, q :: 0 <= p < q < n ==> s[p] != s[q]
  }

  ghost predicate AtMostFrom(arr: seq<int>, s: seq<nat>, p: nat, from: nat, to: nat)
    requires Indexes(s, |arr|) && p < |arr| && to <= |arr|
  {
    forall q :: from <= q < to ==> arr[s[p]] <= arr[s[q]]
  }

  /** The first i positions are final: each holds an index of the smallest value from there on. */
  ghost predicate SortedTo(arr: seq<int>, s: seq<nat>, i: nat)
    requires Indexes(s, |arr|) && i <= |arr|
  {
    forall p :: 0 <= p < i ==> AtMostFrom(arr, s, p, p, |arr|)
  }

  /** Index 0 comes first as long as no strictly smaller value has displaced it. */
  ghost predicate HeadKept(arr: seq<int>, s: seq<nat>)
    requires Indexes(s, |arr|)
  {
    |arr| > 0 ==> s[0] == 0 || arr[s[0]] < arr[0]
  }

  /** The values already come in order. */
  ghost predicate InOrder(arr: seq<int>) {
    forall p, q :: 0 <= p < q < |arr| ==> arr[p] <= arr[q]
  }

  method SortUintIndex(arr: seq<int>) returns (sorted: array<nat>)
    ensures fresh(sorted) && Indexes(sorted[..], |arr|) && SortedTo(arr, sorted[..], |arr|) && HeadKept(arr, sorted[..])
    ensures InOrder(arr) ==> forall p :: 0 <= p < |arr| ==> sorted[p] == p
  {
    var n := |arr|;
    sorted := new nat[n](i => i);
    var i: nat := 0;
    while i < n
      invariant i <= n && Indexes(sorted[..], n) && SortedTo(arr, sorted[..], i) && HeadKept(arr, sorted[..])
      invariant InOrder(arr) ==> forall p :: 0 <= p < n ==> sorted[p] == p
    {
      var j := i + 1;
      while j < n
        invariant i < j <= n && Indexes(sorted[..], n) && SortedTo(arr, sorted[..], i) && HeadKept(arr, sorted[..])
        invariant AtMostFrom(arr, sorted[..], i, i, j)
        invariant InOrder(arr) ==> forall p :: 0 <= p < n ==> sorted[p] == p
      {
        if arr[sorted[j]] < arr[sorted[i]] {
          SwapKeeps(arr, sorted[..], i, j);
          sorted[j], sorted[i] := sorted[i], sorted[j];
        }
        j := j + 1;
      }
      i := i + 1;
    }
  }

  lemma SwapKeeps(arr: seq<int>, s: seq<nat>, i: nat, j: nat)
    requires i < j < |arr| && Indexes(s, |arr|) && SortedTo(arr, s, i) && HeadKept(arr, s)
    requires AtMostFrom(arr, s, i, i, j) && arr[s[j]] < arr[s[i]]
    ensures var s' := s[j := s[i]][i := s[j]];
            && Indexes(s', |arr|) && SortedTo(arr, s', i) && HeadKept(arr, s') && AtMostFrom(arr, s', i, i, j + 1)
  {
    var s' := s[j := s[i]][i := s[j]];
    assert Indexes(s', |arr|);
    forall p | 0 <= p < i ensures AtMostFrom(arr, s', p, p, |arr|) {
      assert AtMostFrom(arr, s, p, p, |arr|);
      forall q | p <= q < |arr| ensures arr[s'[p]] <= arr[s'[q]] {
        assert arr[s[p]] <= arr[s[i]] && arr[s[p]] <= arr[s[j]] && arr[s[p]] <= arr[s[q]];
      }
    }
  }

  // --------------------------------------------------------------------- steal orders

  /** Latencies from socket i, in the order of the sockets around it. */
  function LatenciesAround(lats: seq<int>, i: nat): (s: seq<int>)
    requires i < |lats|
    ensures |s| == |lats|
  {
    seq(|lats|, j requires 0 <= j < |lats| => lats[Around(i, j, |lats|)])
  }

  /** The stealing order of queue i: the sorted sockets but the first, then the queue itself. */
  function NextQ(indexes: seq<nat>, i: nat): (s: seq<nat>)
    requires i < |indexes| && Indexes(indexes, |indexes|)
    ensures |s| == |indexes| && s[|s| - 1] == i
    ensures forall k :: 0 <= k < |s| - 1 ==> s[k] == Around(i, indexes[k + 1], |indexes|)
  {
    seq(|indexes| - 1, k requires 0 <= k < |indexes| - 1 => Around(i, indexes[k + 1], |indexes|)) + [i]
  }

  /** No other socket is closer to socket i than socket i is to itself. */
  predicate OwnIsClosest(lats: seq<int>, i: nat)
    requires i < |lats|
  {
    forall x :: 0 <= x < |lats| ==> lats[i] <= lats[x]
  }

  ghost predicate Covers(next: seq<nat>, n: nat) {
    forall x: nat :: x < n ==> x in next
  }

  method QueueOrder(lats: seq<int>, i: nat) returns (next: seq<nat>)
    requires i < |lats|
    ensures |next| == |lats| && next[|lats| - 1] == i && forall k :: 0 <= k < |next| ==> next[k] < |lats|
    ensures Covers(next, |lats|) <==> OwnIsClosest(lats, i)
    ensures forall k, m :: 0 <= k < m < |lats| - 1 ==> next[k] != next[m] && lats[next[k]] <= lats[next[m]]
    ensures OwnIsClosest(lats, i) ==> forall k :: 0 <= k < |lats| - 1 ==> next[k] != i
    ensures AllAlike(lats, i) ==> forall k :: 0 <= k < |lats| ==> next[k] == (i + 1 + k) % |lats|
  {
    var around := LatenciesAround(lats, i);
    var indexes := SortUintIndex(around);
    ghost var s := indexes[..];
    next := [];
    var j: nat := 1;
    while j < |lats|
      invariant 1 <= j <= |lats| && |next| == j - 1
      invariant forall k :: 0 <= k < |next| ==> next[k] == Around(i, s[k + 1], |lats|)
    {
      next := next + [Around(i, indexes[j], |lats|)];
      j := j + 1;
    }
    next := next + [i];
    assert next == NextQ(s, i);
    OrderFacts(lats, i, s);
    if AllAlike(lats, i) {
      AlikeInOrder(lats, i);
      forall k | 0 <= k < |lats| ensures next[k] == (i + 1 + k) % |lats| { TurnAround(i, k, |lats|); }
    }
  }

  /** The other sockets are all equally far from socket i, and none is closer than itself. */
  ghost predicate AllAlike(lats: seq<int>, i: nat)
    requires i < |lats|
  {
    && OwnIsClosest(lats, i)
    && forall x, y :: 0 <= x < |lats| && 0 <= y < |lats| && x != i && y != i ==> lats[x] == lats[y]
  }

  lemma AlikeInOrder(lats: seq<int>, i: nat)
    requires i < |lats| && AllAlike(lats, i)
    ensures InOrder(LatenciesAround(lats, i))
  {
    forall p, q | 0 <= p < q < |lats| ensures LatenciesAround(lats, i)[p] <= LatenciesAround(lats, i)[q] {
      AroundIs(i, p, |lats|);
      AroundIs(i, q, |lats|);
    }
  }

  lemma TurnAround(i: nat, k: nat, n: nat)
    requires i < n && k < n
    ensures k + 1 < n ==> (i + 1 + k) % n == Around(i, k + 1, n)
    ensures k + 1 == n ==> (i + 1 + k) % n == i
  {}

  lemma OrderFacts(lats: seq<int>, i: nat, s: seq<nat>)
    requires i < |lats| && Indexes(s, |lats|)
    requires SortedTo(LatenciesAround(lats, i), s, |lats|) && HeadKept(LatenciesAround(lats, i), s)
    ensures Covers(NextQ(s, i), |lats|) <==> OwnIsClosest(lats, i)
    ensures forall k, m :: 0 <= k < m < |lats| - 1 ==>
              NextQ(s, i)[k] != NextQ(s, i)[m] && lats[NextQ(s, i)[k]] <= lats[NextQ(s, i)[m]]
    ensures OwnIsClosest(lats, i) ==> forall k :: 0 <= k < |lats| - 1 ==> NextQ(s, i)[k] != i
  {
    var next, arr, n := NextQ(s, i), LatenciesAround(lats, i), |lats|;
    AroundIs(i, 0, n);
    HeadIsOwn(lats, i, s);
    forall k, m | 0 <= k < m < n - 1 ensures next[k] != next[m] && lats[next[k]] <= lats[next[m]] {
      assert AtMostFrom(arr, s, k + 1, k + 1, n);
      if next[k] == next[m] { AroundDiffers(i, s[k + 1], s[m + 1], n); }
    }
    if OwnIsClosest(lats, i) {
      CoverWhenClosest(lats, i, s);
      forall k | 0 <= k < n - 1 ensures next[k] != i {
        if next[k] == i { AroundDiffers(i, s[k + 1], 0, n); }
      }
    } else {
      MissingOtherwise(lats, i, s);
    }
  }

  /** The socket itself is sorted first exactly when no other one is strictly closer. */
  lemma HeadIsOwn(lats: seq<int>, i: nat, s: seq<nat>)
    requires i < |lats| && Indexes(s, |lats|)
    requires SortedTo(LatenciesAround(lats, i), s, |lats|) && HeadKept(LatenciesAround(lats, i), s)
    ensures s[0] == 0 <==> OwnIsClosest(lats, i)
  {
    var arr, n := LatenciesAround(lats, i), |lats|;
    AroundIs(i, 0, n);
    assert AtMostFrom(arr, s, 0, 0, n);
    if s[0] == 0 {
      forall x | 0 <= x < n ensures lats[i] <= lats[x] {
        var q := PositionOf(s, n, Distance(i, x, n));
        assert arr[s[0]] <= arr[s[q]];
      }
    } else {
      assert arr[s[0]] < arr[0];
    }
  }

  /** n different indexes below n are all of them. */
  lemma PositionOf(s: seq<nat>, n: nat, x: nat) returns (q: nat)
    requires Indexes(s, n) && x < n
    ensures q < n && s[q] == x
  {
    DistinctSet(s);
    SubsetSize(AsSet(s), NumbersBelow(n));
    assert x in NumbersBelow(n) && x in AsSet(s);
    q :| 0 <= q < n && s[q] == x;
  }

  lemma CoverWhenClosest(lats: seq<int>, i: nat, s: seq<nat>)
    requires i < |lats| && Indexes(s, |lats|) && s[0] == 0
    ensures Covers(NextQ(s, i), |lats|)
  {
    var next, n := NextQ(s, i), |lats|;
    forall x: nat | x < n ensures x in next {
      var q := PositionOf(s, n, Distance(i, x, n));
      AroundIs(i, 0, n);
      assert q > 0 ==> next[q - 1] == x;
      assert q == 0 ==> next[n - 1] == x;
    }
  }

  /** Otherwise the closest socket is missing from the order. */
  lemma MissingOtherwise(lats: seq<int>, i: nat, s: seq<nat>)
    requires i < |lats| && Indexes(s, |lats|) && s[0] != 0
    ensures Around(i, s[0], |lats|) !in NextQ(s, i)
  {
    var next, n := NextQ(s, i), |lats|;
    var x := Around(i, s[0], n);
    AroundIs(i, 0, n);
    if x in next {
      var k :| 0 <= k < n && next[k] == x;
      if k < n - 1 { AroundDiffers(i, s[0], s[k + 1], n); } else { AroundDiffers(i, s[0], 0, n); }
    }
  }

  /** Two sockets, the other one closer: the order of queue 0 is queue 0 twice. */
  lemma CloserNeighbourIsMissed(s: seq<nat>)
    requires Indexes(s, 2) && SortedTo(LatenciesAround([5, 3], 0), s, 2)
    ensures NextQ(s, 0) == [0, 0]
  {
    var arr := LatenciesAround([5, 3], 0);
    assert arr == [5, 3];
    assert AtMostFrom(arr, s, 0, 0, 2);
    assert arr[s[0]] <= arr[s[1]];
  }

  /** The queues of an allocation: each thread's scan covers all queues, which is what the
      proofs about the queue sort ask for, exactly when every socket is closest to itself. */
  method WqCreate(lats: seq<seq<int>>, node: seq<nat>) returns (cfg: Config)
    requires |lats| > 0 && |node| > 0 && (forall i :: 0 <= i < |lats| ==> |lats[i]| == |lats|)
    requires forall t :: 0 <= t < |node| ==> node[t] < |lats|
    ensures cfg.node == node && |cfg.nextQ| == |lats|
    ensures ConfigOk(cfg) <==> forall i :: 0 <= i < |lats| ==> OwnIsClosest(lats[i], i)
    ensures forall i :: 0 <= i < |lats| ==> OthersByLatency(cfg.nextQ[i], lats[i], i)
  {
    var nextQ := [];
    var i: nat := 0;
    while i < |lats|
      invariant i <= |lats| && |nextQ| == i
      invariant forall k :: 0 <= k < i ==> RowOk(nextQ[k], lats, k)
    {
      var next := QueueOrder(lats[i], i);
      nextQ := nextQ + [next];
      i := i + 1;
    }
    cfg := Config(node, nextQ);
    CoversAll(lats, cfg);
  }

  /** The other queues, each once, in the order of their latencies, and the own queue last. */
  ghost predicate OthersByLatency(next: seq<nat>, row: seq<int>, i: nat) {
    && i < |row| == |next| && next[|next| - 1] == i && (forall k :: 0 <= k < |next| ==> next[k] < |row|)
    && (forall k, m :: 0 <= k < m < |next| - 1 ==> next[k] != next[m] && row[next[k]] <= row[next[m]])
    && (OwnIsClosest(row, i) ==> forall k :: 0 <= k < |next| - 1 ==> next[k] != i)
  }

  ghost predicate RowOk(next: seq<nat>, lats: seq<seq<int>>, k: nat) {
    && k < |lats| && |lats[k]| == |lats| && (forall x :: x in next ==> x < |lats|)
    && (Covers(next, |lats|) <==> OwnIsClosest(lats[k], k)) && OthersByLatency(next, lats[k], k)
  }

  lemma CoversAll(lats: seq<seq<int>>, cfg: Config)
    requires |lats| > 0 && |cfg.node| > 0 && |cfg.nextQ| == |lats|
    requires forall t :: 0 <= t < |cfg.node| ==> cfg.node[t] < |lats|
    requires forall i :: 0 <= i < |lats| ==> |lats[i]| == |lats| && RowOk(cfg.nextQ[i], lats, i)
    ensures ConfigOk(cfg) <==> forall i :: 0 <= i < |lats| ==> OwnIsClosest(lats[i], i)
  {
    if ConfigOk(cfg) {
      forall i | 0 <= i < |lats| ensures OwnIsClosest(lats[i], i) {
        assert RowOk(cfg.nextQ[i], lats, i);
        forall x: nat | x < |lats| ensures x in cfg.nextQ[i] {}
      }
    }
    if forall i :: 0 <= i < |lats| ==> OwnIsClosest(lats[i], i) {
      forall i, q | 0 <= i < |cfg.nextQ| && 0 <= q < |cfg.nextQ| ensures q in cfg.nextQ[i] {
        assert RowOk(cfg.nextQ[i], lats, i) && Covers(cfg.nextQ[i], |lats|);
      }
    }
  }
}
