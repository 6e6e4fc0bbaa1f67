/** A parallel phase that performs several merges at once: each merge is a job with
    its own team of threads, and the members of all teams interleave freely. */
module MergeJobs {
  import opened SortedSeqs
  import opened Phases
  import opened ParallelMerge
  import opened Traces

  /** Put `keys` into buffer `buf` from `base` on; member u of the team runs team[u]. */
  datatype Job = Job(keys: seq<int>, buf: nat, base: nat, team: seq<Program>) {
    predicate Owns(c: nat, k: nat) { c == buf && base <= k < base + |keys| }

    /** The store belongs to the job and puts the key that belongs at its index. */
    predicate Right(w: Store) { Owns(w.buf, w.idx) && w.val == keys[w.idx - base] }

    /** Members only store right keys, and between them they store every key. */
    ghost predicate Good() {
      && (forall u, w :: 0 <= u < |team| && w in team[u] ==> Right(w))
      && (forall k :: base <= k < base + |keys| ==> Written(team, buf, k))
    }
  }

  /** The job of merging `a` and `b` with n threads. */
  function MergeJob(a: seq<int>, b: seq<int>, n: nat, buf: nat, base: nat): (j: Job)
    requires Sorted(a) && Sorted(b) && MergeInputs(a, b, n)
  {
    Job(Merge(a, b), buf, base, MergePrograms(a, b, n, buf, base))
  }

  lemma MergeJobGood(a: seq<int>, b: seq<int>, n: nat, buf: nat, base: nat)
    requires Sorted(a) && Sorted(b) && MergeInputs(a, b, n)
    ensures var j := MergeJob(a, b, n, buf, base);
            j.Good() && |j.team| == n && j.keys == Merge(a, b) && j.buf == buf && j.base == base
  {
    var j := MergeJob(a, b, n, buf, base);
    forall u, w | 0 <= u < |j.team| && w in j.team[u] ensures j.Right(w) {
      ThreadProgramStores(a, b, n, u, buf, base, w);
    }
    forall k | base <= k < base + |j.keys| ensures Written(j.team, buf, k) {
      var t := ThreadProgramsCover(a, b, n, buf, base, k - base);
      assert Hits(j.team[t], buf, k);
    }
  }

  /** The store w is one that member u of job j makes. */
  ghost predicate MadeBy(jobs: seq<Job>, w: Store, j: nat, u: nat) {
    j < |jobs| && u < |jobs[j].team| && w in jobs[j].team[u]
  }

  ghost predicate Made(jobs: seq<Job>, w: Store) {
    exists j, u :: MadeBy(jobs, w, j, u)
  }

  ghost predicate Has(ps: seq<Program>, w: Store) {
    exists t :: 0 <= t < |ps| && w in ps[t]
  }

  /** The programs make all members' stores and no others. */
  ghost predicate Staffed(jobs: seq<Job>, ps: seq<Program>) {
    forall w :: Has(ps, w) <==> Made(jobs, w)
  }

  ghost predicate AllGood(jobs: seq<Job>) {
    forall j :: 0 <= j < |jobs| ==> jobs[j].Good()
  }

  /** `goal` holds every job's keys in their place and is `m` everywhere else. */
  ghost predicate Done(jobs: seq<Job>, m: Memory, goal: Memory) {
    && SameShape(m, goal)
    && (forall j :: 0 <= j < |jobs| ==> Finished(jobs[j], goal))
    && (forall b, k :: 0 <= b < |m| && 0 <= k < |m[b]| ==> Kept(jobs, m, goal, b, k))
  }

  ghost predicate Finished(j: Job, goal: Memory) {
    && j.buf < |goal| && j.base + |j.keys| <= |goal[j.buf]|
    && goal[j.buf][j.base..j.base + |j.keys|] == j.keys
  }

  ghost predicate Owned(jobs: seq<Job>, b: nat, k: nat) {
    exists j :: 0 <= j < |jobs| && jobs[j].Owns(b, k)
  }

  ghost predicate Kept(jobs: seq<Job>, m: Memory, goal: Memory, b: nat, k: nat)
    requires SameShape(m, goal) && b < |m| && k < |m[b]|
  {
    Owned(jobs, b, k) || m[b][k] == goal[b][k]
  }

  lemma RightAgrees(j: Job, goal: Memory, w: Store)
    requires Finished(j, goal) && j.Right(w)
    ensures InBounds(w, goal) && goal[w.buf][w.idx] == w.val
  {
    assert goal[j.buf][j.base..j.base + |j.keys|][w.idx - j.base] == w.val;
  }

  lemma StaffAgrees(jobs: seq<Job>, m: Memory, goal: Memory, ps: seq<Program>)
    requires AllGood(jobs) && Done(jobs, m, goal) && Staffed(jobs, ps)
    ensures Agree(ps, goal)
  {
    forall t, w | 0 <= t < |ps| && w in ps[t] ensures InBounds(w, goal) && goal[w.buf][w.idx] == w.val {
      assert Has(ps, w) && Made(jobs, w);
      var j: nat, u: nat :| MadeBy(jobs, w, j, u);
      assert jobs[j].Good() && Finished(jobs[j], goal);
      RightAgrees(jobs[j], goal, w);
    }
  }

  lemma OwnedIsWritten(jobs: seq<Job>, ps: seq<Program>, j: nat, b: nat, k: nat)
    requires AllGood(jobs) && Staffed(jobs, ps) && j < |jobs| && jobs[j].Owns(b, k)
    ensures Written(ps, b, k)
  {
    var job := jobs[j];
    assert job.Good();
    assert Written(job.team, b, k);
    var u :| 0 <= u < |job.team| && Hits(job.team[u], b, k);
    var w :| w in job.team[u] && w.buf == b && w.idx == k;
    assert MadeBy(jobs, w, j, u) && Made(jobs, w) && Has(ps, w);
    var t :| 0 <= t < |ps| && w in ps[t];
    assert Hits(ps[t], b, k);
  }

  lemma StaffStaysIn(jobs: seq<Job>, ps: seq<Program>, b: nat)
    requires AllGood(jobs) && Staffed(jobs, ps) && forall j :: 0 <= j < |jobs| ==> jobs[j].buf == b
    ensures AllStayIn(ps, b)
  {
    forall t, w: Store | 0 <= t < |ps| && w in ps[t] ensures w.buf == b {
      assert Has(ps, w) && Made(jobs, w);
      var j: nat, u: nat :| MadeBy(jobs, w, j, u);
      assert jobs[j].Good() && jobs[j].Right(w);
    }
  }

  /** Whatever the interleaving, the phase leaves every job done and nothing else changed. */
  lemma JobsDone(jobs: seq<Job>, m: Memory, goal: Memory, ps: seq<Program>, sched: seq<nat>)
    requires AllGood(jobs) && Done(jobs, m, goal) && Staffed(jobs, ps) && Complete(ps, sched)
    ensures AllInBounds(ps, m)
    ensures Run(m, ps, sched) == goal
  {
    StaffAgrees(jobs, m, goal, ps);
    forall b, k | 0 <= b < |m| && 0 <= k < |m[b]| && !Written(ps, b, k)
      ensures m[b][k] == goal[b][k]
    {
      assert Kept(jobs, m, goal, b, k);
      if Owned(jobs, b, k) {
        var j :| 0 <= j < |jobs| && jobs[j].Owns(b, k);
        OwnedIsWritten(jobs, ps, j, b, k);
      }
    }
    PhaseResult(m, ps, sched, goal);
  }

  // ---------------------------------------------- one team works through all jobs

  ghost predicate SameTeam(jobs: seq<Job>, n: nat) {
    forall i :: 0 <= i < |jobs| ==> |jobs[i].team| == n
  }

  /** In a socket the same n threads take part in every merge of a round: thread t
      makes its slice of the first j jobs, one after the other. */
  function TeamProgram(jobs: seq<Job>, t: nat, j: nat): (p: Program)
    requires j <= |jobs| && forall i :: 0 <= i < |jobs| ==> t < |jobs[i].team|
  {
    if j == 0 then [] else TeamProgram(jobs, t, j - 1) + jobs[j - 1].team[t]
  }

  lemma {:induction false} TeamProgramMade(jobs: seq<Job>, t: nat, j: nat, w: Store)
    requires j <= |jobs| && forall i :: 0 <= i < |jobs| ==> t < |jobs[i].team|
    ensures w in TeamProgram(jobs, t, j) <==> exists i :: 0 <= i < j && w in jobs[i].team[t]
  {
    if j > 0 { TeamProgramMade(jobs, t, j - 1, w); }
  }

  function TeamPrograms(jobs: seq<Job>, n: nat): (ps: seq<Program>)
    requires SameTeam(jobs, n)
    ensures |ps| == n
  {
    seq(n, t requires 0 <= t < n => TeamProgram(jobs, t, |jobs|))
  }

  lemma TeamStaffs(jobs: seq<Job>, n: nat)
    requires SameTeam(jobs, n)
    ensures Staffed(jobs, TeamPrograms(jobs, n))
  {
    var ps := TeamPrograms(jobs, n);
    forall w ensures Has(ps, w) <==> Made(jobs, w) {
      if Has(ps, w) {
        var t :| 0 <= t < |ps| && w in ps[t];
        TeamProgramMade(jobs, t, |jobs|, w);
        var i :| 0 <= i < |jobs| && w in jobs[i].team[t];
        assert MadeBy(jobs, w, i, t);
      }
      if Made(jobs, w) {
        var j: nat, u: nat :| MadeBy(jobs, w, j, u);
        TeamProgramMade(jobs, u, |jobs|, w);
        assert w in ps[u];
      }
    }
  }

  // -------------------------------------------------- a separate team for each job

  /** Across sockets every pair of nodes has its own team; the first j teams. */
  function TeamsPrograms(jobs: seq<Job>, j: nat): (ps: seq<Program>)
    requires j <= |jobs|
  {
    if j == 0 then [] else TeamsPrograms(jobs, j - 1) + jobs[j - 1].team
  }

  lemma AppendedHas(ps: seq<Program>, qs: seq<Program>, w: Store)
    ensures Has(ps + qs, w) <==> Has(ps, w) || Has(qs, w)
  {
    if Has(ps, w) {
      var t :| 0 <= t < |ps| && w in ps[t];
      assert w in (ps + qs)[t];
    }
    if Has(qs, w) {
      var t :| 0 <= t < |qs| && w in qs[t];
      assert w in (ps + qs)[|ps| + t];
    }
  }

  lemma {:induction false} TeamsHave(jobs: seq<Job>, j: nat, w: Store)
    requires j <= |jobs|
    ensures Has(TeamsPrograms(jobs, j), w) <==> exists i :: 0 <= i < j && Has(jobs[i].team, w)
  {
    if j > 0 {
      TeamsHave(jobs, j - 1, w);
      AppendedHas(TeamsPrograms(jobs, j - 1), jobs[j - 1].team, w);
    }
  }

  lemma TeamsStaff(jobs: seq<Job>)
    ensures Staffed(jobs, TeamsPrograms(jobs, |jobs|))
  {
    var ps := TeamsPrograms(jobs, |jobs|);
    forall w ensures Has(ps, w) <==> Made(jobs, w) {
      TeamsHave(jobs, |jobs|, w);
      if i :| 0 <= i < |jobs| && Has(jobs[i].team, w) {
        var u :| 0 <= u < |jobs[i].team| && w in jobs[i].team[u];
        assert MadeBy(jobs, w, i, u);
      }
      if Made(jobs, w) {
        var j: nat, u: nat :| MadeBy(jobs, w, j, u);
        assert Has(jobs[j].team, w);
      }
    }
  }
}
