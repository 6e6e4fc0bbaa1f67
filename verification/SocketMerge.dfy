/** One merging round inside a socket: what its threads store, and what is in the
    destination buffer afterwards. */
module SocketMerge {
  import opened SortedSeqs
  import opened Phases
  import opened Traces
  import opened ParallelMerge
  import opened MergeJobs
  import opened Pieces

  datatype Partition = Partition(startIndex: nat, nElems: nat) {
    predicate Within(mem: seq<int>) { startIndex + nElems <= |mem| }

    function Keys(mem: seq<int>): (s: seq<int>)
      requires Within(mem)
      ensures |s| == nElems
    { mem[startIndex..startIndex + nElems] }
  }

  /** The pieces fill the buffer from its first index on. */
  ghost predicate Laid(mem: seq<int>, ps: Runs) {
    |Flatten(ps)| <= |mem| && mem[..|Flatten(ps)|] == Flatten(ps)
  }

  /** Descriptor i is the range of piece i: the ranges are contiguous and tile the pieces. */
  ghost predicate Describes(parts: seq<Partition>, ps: Runs) {
    |ps| <= |parts| && forall i :: 0 <= i < |ps| ==> parts[i] == Partition(Offset(ps, i), |ps[i]|)
  }

  lemma SliceOfTake(s: seq<int>, f: nat, o: nat, n: nat)
    requires o + n <= f <= |s|
    ensures s[..f][o..o + n] == s[o..o + n]
  {}

  ghost predicate PieceAt(mem: seq<int>, p: Partition, ps: Runs, i: nat) {
    i < |ps| && p.startIndex == Offset(ps, i) && p.Within(mem) && p.Keys(mem) == ps[i]
  }

  lemma LaidPiece(mem: seq<int>, parts: seq<Partition>, ps: Runs, i: nat)
    requires Laid(mem, ps) && Describes(parts, ps) && i < |ps|
    ensures PieceAt(mem, parts[i], ps, i)
  {
    PrefixPiece(ps, i, |ps|);
    SliceOfTake(mem, |Flatten(ps)|, Offset(ps, i), |ps[i]|);
  }

  // ------------------------------------------------------- the stores of a round

  /** The two partitions of merge j can be merged by a team of n threads. */
  ghost predicate Mergeable(mem: seq<int>, parts: seq<Partition>, n: nat, j: nat) {
    2 * j + 1 < |parts| && MergeablePair(mem, parts[2 * j], parts[2 * j + 1], n)
  }

  ghost predicate MergeablePair(mem: seq<int>, p: Partition, q: Partition, n: nat) {
    && p.Within(mem) && q.Within(mem) && Sorted(p.Keys(mem)) && Sorted(q.Keys(mem))
    && MergeInputs(p.Keys(mem), q.Keys(mem), n)
  }

  function RoundJob(mem: seq<int>, parts: seq<Partition>, n: nat, dest: nat, j: nat): (job: Job)
    requires Mergeable(mem, parts, n, j)
  {
    MergeJob(parts[2 * j].Keys(mem), parts[2 * j + 1].Keys(mem), n, dest, parts[2 * j].startIndex)
  }

  /** The h merges of a round from buffer contents `mem`, all n threads in each. */
  function RoundJobs(mem: seq<int>, parts: seq<Partition>, h: nat, n: nat, dest: nat): (jobs: seq<Job>)
    requires forall j :: 0 <= j < h ==> Mergeable(mem, parts, n, j)
    ensures |jobs| == h
    ensures forall j :: 0 <= j < h ==> jobs[j] == RoundJob(mem, parts, n, dest, j)
  {
    seq(h, j requires 0 <= j < h => RoundJob(mem, parts, n, dest, j))
  }

  lemma WidePair(ps: Runs, n: nat, i: nat, j: nat)
    requires AllSorted(ps) && Wide(ps, n) && i < |ps| && j < |ps|
    ensures Sorted(ps[i]) && Sorted(ps[j]) && MergeInputs(ps[i], ps[j], n)
  {}

  lemma PairInputs(mem: seq<int>, p: Partition, q: Partition, a: seq<int>, b: seq<int>, n: nat)
    requires p.Within(mem) && p.Keys(mem) == a && q.Within(mem) && q.Keys(mem) == b
    requires Sorted(a) && Sorted(b) && MergeInputs(a, b, n)
    ensures MergeablePair(mem, p, q, n)
  {}

  lemma RoundJobInputs(mem: seq<int>, parts: seq<Partition>, ps: Runs, n: nat, j: nat)
    requires 2 * j + 1 < |parts| && PieceAt(mem, parts[2 * j], ps, 2 * j)
             && PieceAt(mem, parts[2 * j + 1], ps, 2 * j + 1)
    requires AllSorted(ps) && Wide(ps, n)
    ensures Mergeable(mem, parts, n, j)
  {
    WidePair(ps, n, 2 * j, 2 * j + 1);
    PairInputs(mem, parts[2 * j], parts[2 * j + 1], ps[2 * j], ps[2 * j + 1], n);
  }

  lemma RoundJobIs(mem: seq<int>, parts: seq<Partition>, n: nat, dest: nat, j: nat, a: seq<int>, b: seq<int>)
    requires Mergeable(mem, parts, n, j) && a == parts[2 * j].Keys(mem) && b == parts[2 * j + 1].Keys(mem)
    ensures var job := RoundJob(mem, parts, n, dest, j);
            && job.Good() && |job.team| == n && job.buf == dest
            && job.keys == Merge(a, b) && job.base == parts[2 * j].startIndex
  {
    MergeJobGood(a, b, n, dest, parts[2 * j].startIndex);
  }

  // ------------------------------------------------------------ what they leave

  /** The job of merge j of a round over ps. */
  ghost predicate IsRoundJob(job: Job, qs: Runs, n: nat, dest: nat, j: nat) {
    && j < |qs| && job.Good() && |job.team| == n && job.buf == dest
    && job.keys == qs[j] && job.base == Offset(qs, j)
  }

  lemma AllLaid(mem: seq<int>, parts: seq<Partition>, ps: Runs)
    requires Laid(mem, ps) && Describes(parts, ps)
    ensures forall i :: 0 <= i < |ps| ==> PieceAt(mem, parts[i], ps, i)
  {
    forall i | 0 <= i < |ps| ensures PieceAt(mem, parts[i], ps, i) { LaidPiece(mem, parts, ps, i); }
  }

  lemma RoundMergeable(mem: seq<int>, parts: seq<Partition>, ps: Runs, h: nat, n: nat)
    requires |ps| <= |parts| && forall i :: 0 <= i < |ps| ==> PieceAt(mem, parts[i], ps, i)
    requires AllSorted(ps) && Wide(ps, n) && 2 * h <= |ps|
    ensures forall j :: 0 <= j < h ==> Mergeable(mem, parts, n, j)
  {
    forall j | 0 <= j < h ensures Mergeable(mem, parts, n, j) { RoundJobInputs(mem, parts, ps, n, j); }
  }

  lemma PairedAtOffset(ps: Runs, j: nat)
    requires 2 * j + 1 < |ps|
    ensures j < |MergeAdjacent(ps)| && MergeAdjacent(ps)[j] == Merge(ps[2 * j], ps[2 * j + 1])
    ensures Offset(MergeAdjacent(ps), j) == Offset(ps, 2 * j)
  {
    MergeAdjacentPairs(ps, j + 1);
    assert PairedAt(ps, MergeAdjacent(ps), j);
    MergeAdjacentPairs(ps, j);
    PairedOffset(ps, MergeAdjacent(ps), j);
  }

  lemma RoundJobsAre(mem: seq<int>, parts: seq<Partition>, ps: Runs, h: nat, n: nat, dest: nat)
    requires Laid(mem, ps) && Describes(parts, ps) && 2 * h <= |ps|
    requires forall j :: 0 <= j < h ==> Mergeable(mem, parts, n, j)
    ensures forall j :: 0 <= j < h ==> IsRoundJob(RoundJobs(mem, parts, h, n, dest)[j], MergeAdjacent(ps), n, dest, j)
  {
    forall j | 0 <= j < h ensures IsRoundJob(RoundJobs(mem, parts, h, n, dest)[j], MergeAdjacent(ps), n, dest, j) {
      LaidPiece(mem, parts, ps, 2 * j);
      LaidPiece(mem, parts, ps, 2 * j + 1);
      RoundJobIs(mem, parts, n, dest, j, ps[2 * j], ps[2 * j + 1]);
      PairedAtOffset(ps, j);
    }
  }

  lemma RoundJobFinished(m: Memory, dest: nat, qs: Runs, h: nat, job: Job, n: nat, j: nat)
    requires dest < |m| && h <= |qs| && |Prefix(qs, h)| <= |m[dest]| && j < h && IsRoundJob(job, qs, n, dest, j)
    ensures Finished(job, Place(m, dest, 0, Prefix(qs, h)))
  {
    PrefixPiece(qs, j, h);
    var o, k, s := Offset(qs, j), |qs[j]|, Prefix(qs, h);
    var g := Place(m, dest, 0, s)[dest];
    assert g[o..o + k] == s[o..o + k];
  }

  lemma RoundDone(m: Memory, dest: nat, qs: Runs, h: nat, jobs: seq<Job>, n: nat)
    requires dest < |m| && h == |jobs| <= |qs| && |Prefix(qs, h)| <= |m[dest]|
    requires forall j :: 0 <= j < h ==> IsRoundJob(jobs[j], qs, n, dest, j)
    ensures Done(jobs, m, Place(m, dest, 0, Prefix(qs, h)))
  {
    var goal := Place(m, dest, 0, Prefix(qs, h));
    forall j | 0 <= j < h ensures Finished(jobs[j], goal) { RoundJobFinished(m, dest, qs, h, jobs[j], n, j); }
    forall b, k | 0 <= b < |m| && 0 <= k < |m[b]| ensures Kept(jobs, m, goal, b, k) {
      if b == dest && k < |Prefix(qs, h)| {
        var j := Locate(qs, h, k);
        assert IsRoundJob(jobs[j], qs, n, dest, j);
        assert jobs[j].Owns(b, k);
      }
    }
  }

  /** Whatever the interleaving of a round's threads, the destination buffer starts
      with the merged neighbours, and nothing else has changed. */
  lemma RoundResult(m: Memory, src: nat, dest: nat, parts: seq<Partition>, ps: Runs, h: nat, n: nat, sched: seq<nat>)
    requires src < |m| && dest < |m| && Laid(m[src], ps) && Describes(parts, ps) && AllSorted(ps) && Wide(ps, n)
    requires 2 * h <= |ps| && |Prefix(MergeAdjacent(ps), h)| <= |m[dest]|
    requires forall j :: 0 <= j < h ==> Mergeable(m[src], parts, n, j)
    requires SameTeam(RoundJobs(m[src], parts, h, n, dest), n)
    requires Complete(TeamPrograms(RoundJobs(m[src], parts, h, n, dest), n), sched)
    ensures var programs := TeamPrograms(RoundJobs(m[src], parts, h, n, dest), n);
            && AllInBounds(programs, m) && AllStayIn(programs, dest)
            && Run(m, programs, sched) == Place(m, dest, 0, Prefix(MergeAdjacent(ps), h))
  {
    var jobs, qs := RoundJobs(m[src], parts, h, n, dest), MergeAdjacent(ps);
    RoundJobsAre(m[src], parts, ps, h, n, dest);
    forall j | 0 <= j < |jobs| ensures jobs[j].Good() { assert IsRoundJob(jobs[j], qs, n, dest, j); }
    TeamStaffs(jobs, n);
    StaffStaysIn(jobs, TeamPrograms(jobs, n), dest);
    RoundDone(m, dest, qs, h, jobs, n);
    JobsDone(jobs, m, Place(m, dest, 0, Prefix(qs, h)), TeamPrograms(jobs, n), sched);
  }
}
