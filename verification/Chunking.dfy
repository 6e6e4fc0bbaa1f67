/** Cutting a node's share into one chunk per thread, and phases in which every thread
    fills its own stretch of a buffer. */
module Chunking {
  import opened Arithmetic
  import opened SortedSeqs
  import opened Phases
  import opened Traces
  import opened ParallelMerge
  import opened MergeJobs
  import opened Pieces
  import opened SocketMerge

  // --------------------------------------------- every thread fills its own stretch

  /** Thread t stores piece t where it belongs. */
  function PieceJob(ps: Runs, buf: nat, t: nat): (j: Job)
    requires t < |ps|
  {
    Job(ps[t], buf, Offset(ps, t), [KeyProgram(buf, Offset(ps, t), ps[t])])
  }

  function PieceJobs(ps: Runs, buf: nat): (jobs: seq<Job>)
    ensures |jobs| == |ps| && forall t :: 0 <= t < |ps| ==> jobs[t] == PieceJob(ps, buf, t)
  {
    seq(|ps|, t requires 0 <= t < |ps| => PieceJob(ps, buf, t))
  }

  lemma PieceJobGood(ps: Runs, buf: nat, t: nat)
    requires t < |ps|
    ensures IsRoundJob(PieceJob(ps, buf, t), ps, 1, buf, t)
  {
    var j, d := PieceJob(ps, buf, t), Offset(ps, t);
    forall u, w | 0 <= u < |j.team| && w in j.team[u] ensures j.Right(w) { KeyProgramStores(buf, d, ps[t], w); }
    forall k | d <= k < d + |ps[t]| ensures Written(j.team, buf, k) {
      KeyProgramHits(buf, d, ps[t], buf, k);
      assert Hits(j.team[0], buf, k);
    }
  }

  /** Whatever the interleaving, the pieces end up one after the other in the buffer. */
  lemma PiecesResult(m: Memory, buf: nat, ps: Runs, sched: seq<nat>)
    requires buf < |m| && |Flatten(ps)| <= |m[buf]| && Complete(TeamsPrograms(PieceJobs(ps, buf), |ps|), sched)
    ensures AllInBounds(TeamsPrograms(PieceJobs(ps, buf), |ps|), m)
    ensures Run(m, TeamsPrograms(PieceJobs(ps, buf), |ps|), sched) == Place(m, buf, 0, Flatten(ps))
    ensures AllStayIn(TeamsPrograms(PieceJobs(ps, buf), |ps|), buf)
  {
    var jobs := PieceJobs(ps, buf);
    forall t | 0 <= t < |jobs| ensures IsRoundJob(jobs[t], ps, 1, buf, t) { PieceJobGood(ps, buf, t); }
    forall t | 0 <= t < |jobs| ensures jobs[t].Good() { assert IsRoundJob(jobs[t], ps, 1, buf, t); }
    RoundDone(m, buf, ps, |ps|, jobs, 1);
    TeamsStaff(jobs);
    StaffStaysIn(jobs, TeamsPrograms(jobs, |ps|), buf);
    JobsDone(jobs, m, Place(m, buf, 0, Flatten(ps)), TeamsPrograms(jobs, |ps|), sched);
  }

  // ------------------------------------------------------------------------ chunks

  /** Where thread t's chunk starts when the chunk size is c. */
  function ChunkStart(c: nat, t: nat): nat { if t == 0 then 0 else ChunkStart(c, t - 1) + c }

  lemma {:induction false} ChunkStartIs(c: nat, t: nat)
    ensures ChunkStart(c, t) == t * c
  {
    if t > 0 { ChunkStartIs(c, t - 1); }
  }

  lemma {:induction false} ChunkStartGrows(c: nat, s: nat, t: nat)
    requires s <= t
    ensures ChunkStart(c, s) <= ChunkStart(c, t)
  {
    if s < t {
      ChunkStartGrows(c, s, t - 1);
    }
  }

  /** The last of k threads takes what is left over. */
  function ChunkEnd(n: nat, c: nat, k: nat, t: nat): nat {
    if t == k - 1 then n else ChunkStart(c, t) + c
  }

  ghost predicate ChunksFit(n: nat, c: nat, k: nat) {
    k > 0 && ChunkStart(c, k) <= n
  }

  lemma ChunkInside(n: nat, c: nat, k: nat, t: nat)
    requires ChunksFit(n, c, k) && t < k
    ensures ChunkStart(c, t) + c <= ChunkEnd(n, c, k, t) <= n
  {
    ChunkStartGrows(c, t + 1, k);
  }

  function Chunks(keys: seq<int>, c: nat, k: nat): (ps: Runs)
    requires ChunksFit(|keys|, c, k)
    ensures |ps| == k
  {
    seq(k, t requires 0 <= t < k =>
      ChunkInside(|keys|, c, k, t); keys[ChunkStart(c, t)..ChunkEnd(|keys|, c, k, t)])
  }

  lemma ChunkIs(keys: seq<int>, c: nat, k: nat, t: nat)
    requires ChunksFit(|keys|, c, k) && t < k
    ensures ChunkStart(c, t) + c <= ChunkEnd(|keys|, c, k, t) <= |keys|
    ensures Chunks(keys, c, k)[t] == keys[ChunkStart(c, t)..ChunkEnd(|keys|, c, k, t)]
    ensures |Chunks(keys, c, k)[t]| >= c
  {
    ChunkInside(|keys|, c, k, t);
  }

  lemma ChunksStep(keys: seq<int>, c: nat, k: nat, t: nat)
    requires ChunksFit(|keys|, c, k) && t + 1 < k && ChunkStart(c, t) <= |keys|
    requires Prefix(Chunks(keys, c, k), t) == keys[..ChunkStart(c, t)]
    ensures ChunkStart(c, t + 1) <= |keys| && Prefix(Chunks(keys, c, k), t + 1) == keys[..ChunkStart(c, t + 1)]
  {
    ChunkIs(keys, c, k, t);
    var s, e := ChunkStart(c, t), ChunkStart(c, t + 1);
    assert keys[..s] + keys[s..e] == keys[..e];
  }

  lemma {:induction false} ChunksPrefix(keys: seq<int>, c: nat, k: nat, t: nat)
    requires ChunksFit(|keys|, c, k) && t < k
    ensures ChunkStart(c, t) <= |keys| && Prefix(Chunks(keys, c, k), t) == keys[..ChunkStart(c, t)]
  {
    if t > 0 {
      ChunksPrefix(keys, c, k, t - 1);
      ChunksStep(keys, c, k, t - 1);
    }
  }

  /** The chunks are the whole share, in order. */
  lemma ChunksFlatten(keys: seq<int>, c: nat, k: nat)
    requires ChunksFit(|keys|, c, k)
    ensures Flatten(Chunks(keys, c, k)) == keys
  {
    ChunksPrefix(keys, c, k, k - 1);
    ChunkIs(keys, c, k, k - 1);
    var s := ChunkStart(c, k - 1);
    assert keys[..s] + keys[s..] == keys;
  }

  // ----------------------------------------------------------- sorting every piece

  function SortAll(ps: Runs): (qs: Runs)
    ensures |qs| == |ps| && forall t :: 0 <= t < |ps| ==> qs[t] == Sort(ps[t])
  {
    seq(|ps|, t requires 0 <= t < |ps| => Sort(ps[t]))
  }

  ghost predicate SameKeys(ps: Runs, qs: Runs) {
    |qs| == |ps| && forall t :: 0 <= t < |ps| ==> SameMultiset(ps[t], qs[t])
  }

  ghost predicate SameMultiset(s: seq<int>, t: seq<int>) { |s| == |t| && multiset(s) == multiset(t) }

  lemma AppendBoth(p: seq<int>, q: seq<int>, s: seq<int>, t: seq<int>)
    requires SameMultiset(p, q) && SameMultiset(s, t)
    ensures SameMultiset(p + s, q + t)
  {}

  lemma {:induction false} SameKeysPrefix(ps: Runs, qs: Runs, j: nat)
    requires SameKeys(ps, qs) && j <= |ps|
    ensures SameMultiset(Prefix(ps, j), Prefix(qs, j)) && Offset(qs, j) == Offset(ps, j)
  {
    if j > 0 {
      SameKeysPrefix(ps, qs, j - 1);
      AppendBoth(Prefix(ps, j - 1), Prefix(qs, j - 1), ps[j - 1], qs[j - 1]);
    }
  }

  lemma SortAllKeys(ps: Runs)
    ensures SameKeys(ps, SortAll(ps))
  {}

  /** What a node's threads sort: a permutation of the share, in sorted pieces of at
      least c keys. */
  lemma SortedChunks(keys: seq<int>, c: nat, k: nat)
    requires ChunksFit(|keys|, c, k)
    ensures var ps := SortAll(Chunks(keys, c, k));
            && AllSorted(ps) && multiset(Flatten(ps)) == multiset(keys) && |Flatten(ps)| == |keys|
            && (forall t :: 0 <= t < k ==> c <= |ps[t]|)
  {
    var raw := Chunks(keys, c, k);
    ChunksFlatten(keys, c, k);
    SortAllKeys(raw);
    SameKeysPrefix(raw, SortAll(raw), k);
    forall t | 0 <= t < k ensures c <= |SortAll(raw)[t]| { ChunkIs(keys, c, k, t); }
  }

  /** Piece t is the size of thread t's chunk and lies where the chunk does. */
  ghost predicate ChunkShaped(ps: Runs, n: nat, c: nat, k: nat) {
    |ps| == k && forall t :: 0 <= t < k ==> ChunkShapedAt(ps, n, c, k, t)
  }

  ghost predicate ChunkShapedAt(ps: Runs, n: nat, c: nat, k: nat, t: nat) {
    t < |ps| && Offset(ps, t) == ChunkStart(c, t) && ChunkStart(c, t) + |ps[t]| == ChunkEnd(n, c, k, t)
  }

  lemma SortedChunksShaped(keys: seq<int>, c: nat, k: nat)
    requires ChunksFit(|keys|, c, k)
    ensures ChunkShaped(SortAll(Chunks(keys, c, k)), |keys|, c, k)
  {
    var ps := SortAll(Chunks(keys, c, k));
    forall t | 0 <= t < k ensures ChunkShapedAt(ps, |keys|, c, k, t)
    { SortedChunkAt(keys, c, k, t); ChunkIs(keys, c, k, t); }
  }

  lemma SortedChunkAt(keys: seq<int>, c: nat, k: nat, t: nat)
    requires ChunksFit(|keys|, c, k) && t < k
    ensures var ps := SortAll(Chunks(keys, c, k));
            && Offset(ps, t) == ChunkStart(c, t) && |ps[t]| == ChunkEnd(|keys|, c, k, t) - ChunkStart(c, t)
  {
    var raw := Chunks(keys, c, k);
    SortAllKeys(raw);
    SameKeysPrefix(raw, SortAll(raw), t);
    ChunksPrefix(keys, c, k, t);
    ChunkIs(keys, c, k, t);
  }

  // --------------------------------------------------------------- the chunk size

  /** The divisor the chunk size is rounded down to: the code only ever leaves the
      product of a and b when they are equal. */
  function ChunkUnit(a: nat, b: nat): nat { if a == b then a else a * b }

  lemma Quotient(x: nat, y: nat)
    requires x > 0
    ensures x * y / x == y
  {
    DivIs(x * y, x, y);
  }

  /** The first division leaves the larger of the two. */
  lemma ProductByMin(a: nat, b: nat)
    requires a > 0 && b > 0
    ensures Min(a, b) > 0 && a * b / Min(a, b) == if a < b then b else a
  {
    if a <= b {
      Quotient(a, b);
    } else {
      Commute(a, b);
      Quotient(b, a);
    }
  }

  /** The test of the loops: still a multiple of each factor above one, and not above the smaller. */
  predicate KeepsShrinking(a: nat, b: nat, nm: nat) {
    (a > 1 ==> nm % a == 0) && (b > 1 ==> nm % b == 0) && nm <= Min(a, b)
  }

  lemma ShrinksOnce(a: nat, b: nat)
    requires a > 0 && b > 0 && (a > 1 || b > 1)
    ensures KeepsShrinking(a, b, if a < b then b else a) <==> a == b
    ensures a == b ==> a / Min(a, b) == 1 && !KeepsShrinking(a, b, 1)
  {}

  method ShrinkUnit(a: nat, b: nat) returns (m: nat)
    requires a > 0 && b > 0
    ensures m == ChunkUnit(a, b)
  {
    var min := Min(a, b);
    m := a * b;
    if a > 1 || b > 1 {
      ProductByMin(a, b);
      ShrinksOnce(a, b);
      var nm := m / min;
      ghost var shrunk := false;
      while KeepsShrinking(a, b, nm)
        invariant !shrunk ==> m == a * b && nm == if a < b then b else a
        invariant shrunk ==> a == b && m == a && nm == 1
        decreases !shrunk
      {
        shrunk := true;
        m := nm;
        nm := m / min;
      }
    }
  }

  lemma LargestMultiple(s: nat, m: nat, r: nat)
    requires m > 0 && r % m == 0 && r <= s && s - s % m <= r
    ensures r == s - s % m
  {
    var q, p := s / m, r / m;
    assert s == q * m + s % m && r == p * m;
    if p > q { assert (q + 1) * m <= p * m; }
  }

  lemma RemainderAtMost(s: nat, m: nat)
    requires m > 0
    ensures 0 <= s - s % m <= s
  {
    assert s == (s / m) * m + s % m;
  }

  /** The last loop: counting down to a multiple. */
  method RoundDown(s: nat, m: nat) returns (r: nat)
    requires m > 0
    ensures r == s - s % m
  {
    ghost var multiple := s - s % m;
    RemainderAtMost(s, m);
    r := s;
    var rest := r % m;
    while rest != 0
      invariant multiple <= r <= s && rest == r % m
      decreases r
    {
      AboveMultiple(s, m, r);
      r := r - 1;
      rest := r % m;
    }
    LargestMultiple(s, m, r);
  }

  /** The largest number up to s that the unit divides. */
  method SizeGetNumDivByAB(s: nat, a: nat, b: nat) returns (r: nat)
    requires a > 0 && b > 0
    ensures ChunkUnit(a, b) > 0 && r == s - s % ChunkUnit(a, b)
    ensures (if a == b then a else a * b) > 0 && r == s - s % (if a == b then a else a * b)
  {
    var m := ShrinkUnit(a, b);
    UnitPositive(a, b);
    r := RoundDown(s, m);
  }

  lemma UnitPositive(a: nat, b: nat)
    requires a > 0 && b > 0
    ensures ChunkUnit(a, b) >= a && ChunkUnit(a, b) >= b
  {}

  lemma AboveMultiple(s: nat, m: nat, r: nat)
    requires m > 0 && s - s % m <= r && r % m != 0
    ensures s - s % m < r
  {
    if r == s - s % m {
      assert s == (s / m) * m + s % m;
      Remainder(s / m, m);
    }
  }

  lemma Remainder(q: nat, m: nat)
    requires m > 0
    ensures (q * m) % m == 0
  {
    DivIs(q * m, m, q);
  }

  /** Chunks of that size are either empty or at least as long as there are threads,
      and one per thread fits. */
  lemma ChunkSize(n: nat, a: nat, k: nat, c: nat)
    requires a > 0 && k > 0 && ChunkUnit(a, k) > 0 && c == n / k - (n / k) % ChunkUnit(a, k)
    ensures ChunksFit(n, c, k)
    ensures c > 0 <==> n / k >= ChunkUnit(a, k)
    ensures c > 0 ==> c >= k && c >= a
  {
    UnitPositive(a, k);
    assert c <= n / k;
    FitsByDivision(n, k, c);
    ChunkStartIs(c, k);
    RoundedDown(n / k, ChunkUnit(a, k));
  }

  lemma FitsByDivision(n: nat, k: nat, c: nat)
    requires k > 0 && c <= n / k
    ensures k * c <= n
  {
    assert k * (n / k) <= n;
    assert k * c <= k * (n / k);
  }

  lemma RoundedDown(x: nat, m: nat)
    requires m > 0
    ensures x - x % m > 0 <==> x >= m
    ensures x - x % m > 0 ==> x - x % m >= m
  {
    var q := x / m;
    assert x == q * m + x % m;
    if q > 0 { assert q * m >= m; }
  }
}
