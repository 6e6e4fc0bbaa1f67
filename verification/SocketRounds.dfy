/** The in-socket rounds: merging neighbours between barriers, then the node leader's
    update of the partition descriptors and copy of an odd last partition. */
module SocketRounds {
  import opened SortedSeqs
  import opened Phases
  import opened Traces
  import opened ParallelMerge
  import opened MergeJobs
  import opened Pieces
  import opened SocketMerge

  /** The parallel phases of a sort. */
  datatype Stage = SortStage(node: nat) | RoundStage(node: nat, round: nat) | LevelStage(level: nat) | CopyStage

  /** Picks the interleaving of each phase's programs; every run of the sort has one. */
  type Scheduler = (Stage, seq<Program>) -> seq<nat>

  ghost predicate Fair(schedule: Scheduler) {
    forall stage, ps :: Complete(ps, schedule(stage, ps))
  }

  lemma ScheduleExists(ps: seq<Program>)
    ensures exists sched :: Complete(ps, sched)
  {
    var sched := SomeSchedule(ps, 0);
  }

  ghost function OneSchedule(ps: seq<Program>): (sched: seq<nat>)
    ensures Complete(ps, sched)
  {
    ScheduleExists(ps);
    var sched :| Complete(ps, sched);
    sched
  }

  /** There is a scheduler for every sort. */
  lemma FairExists()
    ensures exists schedule :: Fair(schedule)
  {
    assert Fair((stage, ps) => OneSchedule(ps));
  }

  method Halves(n: nat) returns (h: nat, odd: bool)
    ensures n == if odd then 2 * h + 1 else 2 * h
  {
    h, odd := n / 2, n % 2 == 1;
  }

  /** The descriptor of run j of qs. */
  ghost predicate DescribesAt(p: Partition, qs: Runs, j: nat) {
    j < |qs| && p.startIndex == Offset(qs, j) && p.nElems == |qs[j]|
  }

  lemma CombinedDescribes(ps: Runs, qs: Runs, h: nat, j: nat, a: Partition, b: Partition)
    requires Paired(ps, qs, h) && j < h && DescribesAt(a, ps, 2 * j) && DescribesAt(b, ps, 2 * j + 1)
    ensures DescribesAt(Partition(a.startIndex, a.nElems + b.nElems), qs, j)
  {
    assert PairedAt(ps, qs, j);
    PairedOffset(ps, qs, j);
  }

  /** The first i descriptors are combined, those from index k on are as before. */
  ghost predicate Combining(parts: seq<Partition>, parts': seq<Partition>, qs: Runs, i: nat, k: nat) {
    && |parts'| == |parts|
    && (forall j :: k <= j < |parts| ==> parts'[j] == parts[j])
    && (forall j :: 0 <= j < i && j < |parts| ==> DescribesAt(parts'[j], qs, j))
  }

  lemma CombineStep(parts: seq<Partition>, parts': seq<Partition>, ps: Runs, qs: Runs, h: nat, i: nat)
    requires Describes(parts, ps) && Paired(ps, qs, h) && i < h && Combining(parts, parts', qs, i, 2 * i)
    ensures 2 * i + 1 < |parts'|
    ensures var p := Partition(parts'[2 * i].startIndex, parts'[2 * i].nElems + parts'[2 * i + 1].nElems);
            Combining(parts, parts'[i := p], qs, i + 1, 2 * i + 2)
  {
    assert parts'[2 * i] == parts[2 * i] && parts'[2 * i + 1] == parts[2 * i + 1];
    CombinedDescribes(ps, qs, h, i, parts[2 * i], parts[2 * i + 1]);
  }

  /** The leader's loop over the descriptors, in place from the front. */
  method CombinePairs(parts: seq<Partition>, h: nat, ghost ps: Runs, ghost qs: Runs) returns (parts': seq<Partition>)
    requires Describes(parts, ps) && Paired(ps, qs, h)
    ensures Combining(parts, parts', qs, h, 2 * h)
  {
    parts' := parts;
    var i: nat := 0;
    while i < h
      invariant i <= h && Combining(parts, parts', qs, i, 2 * i)
    {
      CombineStep(parts, parts', ps, qs, h, i);
      parts' := parts'[i := Partition(parts'[2 * i].startIndex, parts'[2 * i].nElems + parts'[2 * i + 1].nElems)];
      i := i + 1;
    }
  }

  lemma OddDescribes(ps: Runs, qs: Runs, h: nat, p: Partition)
    requires |ps| == 2 * h + 1 && |qs| == h + 1 && Paired(ps, qs, h) && qs[h] == ps[2 * h] && DescribesAt(p, ps, 2 * h)
    ensures DescribesAt(p, qs, h)
  {
    PairedOffset(ps, qs, h);
  }

  /** qs is ps with neighbours merged and an odd last run carried over. */
  ghost predicate Halved(ps: Runs, qs: Runs, h: nat, odd: bool) {
    && |ps| == (if odd then 2 * h + 1 else 2 * h) && |qs| == (if odd then h + 1 else h)
    && Paired(ps, qs, h) && (odd ==> qs[h] == ps[2 * h])
  }

  lemma MergeAdjacentHalves(ps: Runs, h: nat, odd: bool)
    requires |ps| == if odd then 2 * h + 1 else 2 * h
    ensures Halved(ps, MergeAdjacent(ps), h, odd)
  {
    MergeAdjacentPairs(ps, h);
    if odd { OddLast(ps, h); }
  }

  lemma AllDescribed(parts: seq<Partition>, qs: Runs)
    requires |qs| <= |parts| && forall j :: 0 <= j < |qs| ==> DescribesAt(parts[j], qs, j)
    ensures Describes(parts, qs)
  {}

  method Combine(parts: seq<Partition>, h: nat, odd: bool, ghost ps: Runs, ghost qs: Runs)
    returns (parts': seq<Partition>)
    requires Describes(parts, ps) && Halved(ps, qs, h, odd)
    ensures |parts'| == |parts| && Describes(parts', qs)
  {
    parts' := CombinePairs(parts, h, ps, qs);
    if odd {
      assert parts'[2 * h] == parts[2 * h];
      parts' := parts'[h := Partition(parts'[2 * h].startIndex, parts'[2 * h].nElems)];
      OddDescribes(ps, qs, h, parts'[h]);
    }
    AllDescribed(parts', qs);
  }

  // -------------------------------------------------------------------- one round

  /** Only buffer `dest` may differ. */
  ghost predicate OnlyBuffer(m: Memory, m': Memory, dest: nat) {
    SameShape(m, m') && forall b :: 0 <= b < |m| && b != dest ==> m'[b] == m[b]
  }

  lemma PlaceOnly(m: Memory, dest: nat, d: nat, s: seq<int>)
    requires dest < |m| && d + |s| <= |m[dest]|
    ensures OnlyBuffer(m, Place(m, dest, d, s), dest)
    ensures Place(m, dest, d, s)[dest][d..d + |s|] == s
    ensures Place(m, dest, d, s)[dest][..d] == m[dest][..d]
  {}

  lemma TakeTwo(s: seq<int>, p: seq<int>, q: seq<int>)
    requires |p| + |q| <= |s| && s[..|p|] == p && s[|p|..|p| + |q|] == q
    ensures s[..|p| + |q|] == p + q
  {}

  lemma HalvedFits(ps: Runs, qs: Runs, h: nat, odd: bool)
    requires Halved(ps, qs, h, odd)
    ensures Flatten(qs) == if odd then Prefix(qs, h) + qs[h] else Prefix(qs, h)
    ensures |Prefix(qs, h)| == Offset(ps, 2 * h) == Offset(qs, h)
  {
    PairedOffset(ps, qs, h);
  }

  /** The merged pairs and then the odd last partition lie where the new runs belong. */
  lemma RoundLaid(mem: seq<int>, ps: Runs, qs: Runs, h: nat, odd: bool)
    requires Halved(ps, qs, h, odd) && |Flatten(qs)| <= |mem|
    requires mem[..|Prefix(qs, h)|] == Prefix(qs, h)
    requires odd ==> Offset(ps, 2 * h) + |ps[2 * h]| <= |mem|
    requires odd ==> mem[Offset(ps, 2 * h)..Offset(ps, 2 * h) + |ps[2 * h]|] == ps[2 * h]
    ensures Laid(mem, qs)
  {
    HalvedFits(ps, qs, h, odd);
    if odd { TakeTwo(mem, Prefix(qs, h), qs[h]); }
  }

  /** The merges of a round, all threads of the socket at once. */
  method MergePhase(m: Memory, parts: seq<Partition>, src: nat, dest: nat, h: nat, n: nat, schedule: Scheduler,
                    stage: Stage, ghost ps: Runs)
    returns (m': Memory, ghost trace: Program)
    requires Fair(schedule) && src < |m| && dest < |m| && 2 * h <= |ps|
    requires Laid(m[src], ps) && Describes(parts, ps) && AllSorted(ps) && Wide(ps, n)
    requires |Prefix(MergeAdjacent(ps), h)| <= |m[dest]|
    ensures m' == Place(m, dest, 0, Prefix(MergeAdjacent(ps), h))
    ensures Traced(m, trace, m') && StaysIn(trace, dest, dest)
  {
    AllLaid(m[src], parts, ps);
    RoundMergeable(m[src], parts, ps, h, n);
    RoundJobsAre(m[src], parts, ps, h, n, dest);
    var jobs := RoundJobs(m[src], parts, h, n, dest);
    assert SameTeam(jobs, n) by {
      forall i | 0 <= i < |jobs| ensures |jobs[i].team| == n {
        assert IsRoundJob(jobs[i], MergeAdjacent(ps), n, dest, i);
      }
    }
    var programs := TeamPrograms(jobs, n);
    var sched := schedule(stage, programs);
    RoundResult(m, src, dest, parts, ps, h, n, sched);
    m' := Run(m, programs, sched);
    PhaseTraced(m, programs, sched);
    LinearStaysIn(programs, sched, dest, dest);
    trace := Linear(programs, sched);
  }

  lemma HalvedSizes(ps: Runs, h: nat, odd: bool)
    requires Halved(ps, MergeAdjacent(ps), h, odd)
    ensures |Prefix(MergeAdjacent(ps), h)| <= |Flatten(MergeAdjacent(ps))| == |Flatten(ps)|
    ensures odd ==> Offset(ps, 2 * h) + |ps[2 * h]| == |Flatten(ps)|
    ensures |Prefix(MergeAdjacent(ps), h)| == Offset(ps, 2 * h)
  {
    HalvedFits(ps, MergeAdjacent(ps), h, odd);
    MergeAdjacentKeys(ps, h);
    OffsetGrows(MergeAdjacent(ps), h, |MergeAdjacent(ps)|);
  }

  /** One round: merges, barrier, the leader's descriptor update and odd copy. */
  method MergeRound(m: Memory, parts: seq<Partition>, src: nat, dest: nat, nPartitions: nat, n: nat,
                    schedule: Scheduler, stage: Stage, ghost ps: Runs)
    returns (m': Memory, parts': seq<Partition>, nPartitions': nat, ghost trace: Program)
    requires Fair(schedule) && src < |m| && dest < |m| && src != dest && nPartitions == |ps|
    requires Laid(m[src], ps) && Describes(parts, ps) && AllSorted(ps) && Wide(ps, n) && |Flatten(ps)| <= |m[dest]|
    ensures nPartitions' == |MergeAdjacent(ps)| && |parts'| == |parts| && Describes(parts', MergeAdjacent(ps))
    ensures OnlyBuffer(m, m', dest) && Laid(m'[dest], MergeAdjacent(ps))
    ensures Traced(m, trace, m') && StaysIn(trace, dest, dest)
  {
    var h, odd := Halves(nPartitions);
    ghost var qs := MergeAdjacent(ps);
    MergeAdjacentHalves(ps, h, odd);
    HalvedSizes(ps, h, odd);
    m', trace := MergePhase(m, parts, src, dest, h, n, schedule, stage, ps);
    PlaceOnly(m, dest, 0, Prefix(qs, h));
    parts' := Combine(parts, h, odd, ps, qs);
    nPartitions' := h;
    if odd {
      ghost var merged := m';
      ghost var copy;
      m', copy := CarryOver(m', src, dest, parts[2 * h], ps, h);
      TracedAppend(m, trace, merged, copy, m');
      trace := trace + copy;
      nPartitions' := h + 1;
    }
    RoundLaid(m'[dest], ps, qs, h, odd);
  }

  /** The copy of an odd last partition. */
  method CarryOver(m: Memory, src: nat, dest: nat, p: Partition, ghost ps: Runs, ghost h: nat)
    returns (m': Memory, ghost trace: Program)
    requires src < |m| && dest < |m| && src != dest && |ps| == 2 * h + 1 && Laid(m[src], ps)
    requires p == Partition(Offset(ps, 2 * h), |ps[2 * h]|) && |Flatten(ps)| <= |m[dest]|
    ensures OnlyBuffer(m, m', dest) && Offset(ps, 2 * h) + |ps[2 * h]| <= |m[dest]|
    ensures m'[dest][Offset(ps, 2 * h)..Offset(ps, 2 * h) + |ps[2 * h]|] == ps[2 * h]
    ensures m'[dest][..Offset(ps, 2 * h)] == m[dest][..Offset(ps, 2 * h)]
    ensures Traced(m, trace, m') && StaysIn(trace, dest, dest)
  {
    PrefixPiece(ps, 2 * h, 2 * h + 1);
    SliceOfTake(m[src], |Flatten(ps)|, Offset(ps, 2 * h), |ps[2 * h]|);
    PlaceOnly(m, dest, p.startIndex, p.Keys(m[src]));
    m' := Place(m, dest, p.startIndex, p.Keys(m[src]));
    CopyTraced(m, dest, p.startIndex, p.Keys(m[src]));
    trace := KeyProgram(dest, p.startIndex, p.Keys(m[src]));
  }
}
