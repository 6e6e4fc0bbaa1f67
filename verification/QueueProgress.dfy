/** The whole work-queue sort cannot be trapped: every run, however it has gone so far, can
    be continued until every thread has finished and the sorted array is published. */
module QueueProgress {
  import opened SortedSeqs
  import opened Chunks
  import opened WorkQueue
  import opened SortProtocol
  import opened SortProgress
  import opened QueueSort

  // ------------------------------------------------------------ continuing a run

  /** Some continuation of the run leads to g. */
  ghost predicate Continues(cfg: Config, f: System, run: seq<Choice>, g: System) {
    exists run' :: run <= run' && IsRun(cfg, f, run') && After(cfg, f, run') == g
  }

  lemma RunSnoc(cfg: Config, f: System, run: seq<Choice>, ch: Choice)
    requires IsRun(cfg, f, run) && Enabled(cfg, After(cfg, f, run), ch)
    ensures IsRun(cfg, f, run + [ch]) && After(cfg, f, run + [ch]) == SystemStep(cfg, After(cfg, f, run), ch)
  {
    assert (run + [ch])[..|run|] == run;
  }

  lemma ContinueOn(cfg: Config, f: System, run: seq<Choice>, g: System, ch: Choice)
    requires Continues(cfg, f, run, g) && Enabled(cfg, g, ch)
    ensures Continues(cfg, f, run, SystemStep(cfg, g, ch))
  {
    var run' :| run <= run' && IsRun(cfg, f, run') && After(cfg, f, run') == g;
    RunSnoc(cfg, f, run', ch);
    assert run <= run' + [ch];
  }

  ghost predicate GoodSystem(cfg: Config, g: System, w: Witness, c: Contents, keys: multiset<int>) {
    Coupled(cfg, g, w, c) && Good(cfg, Abs(cfg, g, c), keys)
  }

  lemma GoodSystemStep(cfg: Config, g: System, w: Witness, c: Contents, keys: multiset<int>, ch: Choice)
    returns (w': Witness, c': Contents)
    requires GoodSystem(cfg, g, w, c, keys) && Enabled(cfg, g, ch)
    ensures GoodSystem(cfg, SystemStep(cfg, g, ch), w', c', keys)
  {
    w', c' := SystemSimulates(cfg, g, w, c, ch);
    if Abs(cfg, SystemStep(cfg, g, ch), c') != Abs(cfg, g, c) { GoodStep(cfg, Abs(cfg, g, c), keys, ch.t); }
  }

  lemma {:induction false} RunIsGood(cfg: Config, f: System, w: Witness, c: Contents, run: seq<Choice>)
    returns (w': Witness, c': Contents)
    requires Ready(cfg, f, w, c) && IsRun(cfg, f, run)
    ensures GoodSystem(cfg, After(cfg, f, run), w', c', QueueKeys(c))
    decreases |run|
  {
    if run == [] {
      w', c' := w, c;
      assert AbsClients(cfg, f) == f.clients;
      var tags := InitialOk(cfg, View(f, c));
      EnterAll(f.clients);
    } else {
      var before, last := run[..|run| - 1], run[|run| - 1];
      var w1, c1 := RunIsGood(cfg, f, w, c, before);
      w', c' := GoodSystemStep(cfg, After(cfg, f, before), w1, c1, QueueKeys(c), last);
    }
  }

  // --------------------------------------------------------- runs of the protocol

  /** The steps of `sched` are those of the run at the indexes `at`. */
  ghost predicate PickedFrom(run: seq<Choice>, at: seq<nat>, sched: seq<Tid>) {
    && |at| == |sched| && (forall i, j :: 0 <= i < j < |at| ==> at[i] < at[j])
    && forall j :: 0 <= j < |at| ==> at[j] < |run| && run[at[j]].t == sched[j]
  }

  /** The protocol, run by `sched` from p0, is where the system is. */
  ghost predicate Follows(cfg: Config, p0: Proto, sched: seq<Tid>, g: System, c: Contents) {
    && Sized(cfg, p0) && IsSchedule(cfg, sched)
    && ConfigOkNodes(cfg) && |g.clients| == |g.s.threads| == |cfg.node|
    && RunOf(cfg, p0, sched) == Abs(cfg, g, c)
  }

  lemma FollowsStart(cfg: Config, f: System, w: Witness, c: Contents)
    requires Ready(cfg, f, w, c)
    ensures GoodSystem(cfg, f, w, c, QueueKeys(c)) && Follows(cfg, View(f, c), [], f, c)
  {
    assert AbsClients(cfg, f) == f.clients;
    var tags := InitialOk(cfg, View(f, c));
    EnterAll(f.clients);
  }

  lemma FollowsStep(cfg: Config, p0: Proto, sched: seq<Tid>, g: System, w: Witness, c: Contents, keys: multiset<int>,
                    ch: Choice)
    returns (w': Witness, c': Contents, moved: bool)
    requires Follows(cfg, p0, sched, g, c) && GoodSystem(cfg, g, w, c, keys) && Enabled(cfg, g, ch)
    ensures GoodSystem(cfg, SystemStep(cfg, g, ch), w', c', keys)
    ensures Follows(cfg, p0, if moved then sched + [ch.t] else sched, SystemStep(cfg, g, ch), c')
  {
    w', c' := SystemSimulates(cfg, g, w, c, ch);
    moved := Abs(cfg, SystemStep(cfg, g, ch), c') != Abs(cfg, g, c);
    if moved {
      GoodStep(cfg, Abs(cfg, g, c), keys, ch.t);
      RunOfSnoc(cfg, p0, sched, ch.t);
    }
  }

  lemma ProtocolFollows(cfg: Config, f: System, c: Contents, run: seq<Choice>, ch: Choice, w1: Witness, c1: Contents,
                        sched1: seq<Tid>, at1: seq<nat>)
    returns (w': Witness, c': Contents, sched: seq<Tid>, at: seq<nat>)
    requires IsRun(cfg, f, run) && Enabled(cfg, After(cfg, f, run), ch)
    requires GoodSystem(cfg, After(cfg, f, run), w1, c1, QueueKeys(c)) && PickedFrom(run, at1, sched1)
    requires Follows(cfg, View(f, c), sched1, After(cfg, f, run), c1)
    ensures IsRun(cfg, f, run + [ch]) && GoodSystem(cfg, After(cfg, f, run + [ch]), w', c', QueueKeys(c))
    ensures PickedFrom(run + [ch], at, sched) && Follows(cfg, View(f, c), sched, After(cfg, f, run + [ch]), c')
  {
    var moved;
    w', c', moved := FollowsStep(cfg, View(f, c), sched1, After(cfg, f, run), w1, c1, QueueKeys(c), ch);
    RunSnoc(cfg, f, run, ch);
    PickedMore(run, ch, at1, sched1);
    if moved {
      sched, at := sched1 + [ch.t], at1 + [|run|];
    } else {
      sched, at := sched1, at1;
    }
  }

  lemma PickedMore(run: seq<Choice>, ch: Choice, at: seq<nat>, sched: seq<Tid>)
    requires PickedFrom(run, at, sched)
    ensures PickedFrom(run + [ch], at, sched) && PickedFrom(run + [ch], at + [|run|], sched + [ch.t])
  {}

  /** Every run on the linked queues is a run of the client over atomic queues, in which the threads step
      when their operations take effect. */
  lemma {:induction false} RunIsProtocolRun(cfg: Config, f: System, w: Witness, c: Contents, run: seq<Choice>)
    returns (w': Witness, c': Contents, sched: seq<Tid>, at: seq<nat>)
    requires Ready(cfg, f, w, c) && IsRun(cfg, f, run)
    ensures GoodSystem(cfg, After(cfg, f, run), w', c', QueueKeys(c)) && PickedFrom(run, at, sched)
    ensures Follows(cfg, View(f, c), sched, After(cfg, f, run), c')
    decreases |run|
  {
    if run == [] {
      w', c', sched, at := w, c, [], [];
      FollowsStart(cfg, f, w, c);
    } else {
      var before, last := run[..|run| - 1], run[|run| - 1];
      assert run == before + [last];
      var w1, c1, sched1, at1 := RunIsProtocolRun(cfg, f, w, c, before);
      w', c', sched, at := ProtocolFollows(cfg, f, c, before, last, w1, c1, sched1, at1);
    }
  }

  // ------------------------------------------------------- operations come to an end

  /** How far a thread is from being outside any queue operation, with n queues. */
  function PcRank(pc: Pc, n: nat): nat {
    match pc
    case Idle => 0
    case Done(_) => 1
    case EnqLock(_, _, _) => 6
    case EnqLink(_, _, _) => 5
    case EnqTail(_, _, _) => 4
    case EnqSize(_, _, _) => 3
    case EnqUnlock(_) => 2
    case DeqPeek(_) => 12
    case DeqLock(_) => 11
    case DeqCheck(_) => 10
    case DeqEmpty(_) => 2
    case DeqHead(_) => 9
    case DeqNext(_, _) => 8
    case DeqData(_, _, _) => 7
    case DeqMove(_, _, _, _) => 6
    case DeqSize(_, _, _) => 5
    case DeqUnlock(_, _, _) => 4
    case DeqFree(_, _) => 3
    case SumLock(i, _) => if i < n then n + 2 * (n - i) + 1 else 1
    case SumRead(i, _) => if i < n then n + 2 * (n - i) else 1
    case SumUnlock(i, _) => if i < n then n - i + 1 else 1
  }

  lemma PcFalls(s: State, w: Witness, c: Contents, t: Tid)
    requires Inv(s, w, c) && Working(s, t) && Defined(s, t) && Step(s, t).threads[t] != s.threads[t]
    ensures PcRank(Step(s, t).threads[t], |s.queues|) < PcRank(s.threads[t], |s.queues|)
  {
    assert ThreadOk(s, w, c, t);
  }

  function RankSum(threads: seq<Pc>, n: nat): nat {
    if threads == [] then 0 else RankSum(threads[..|threads| - 1], n) + PcRank(threads[|threads| - 1], n)
  }

  lemma {:induction false} RankSumUpdate(threads: seq<Pc>, n: nat, t: Tid, pc: Pc)
    requires t < |threads|
    ensures RankSum(threads[t := pc], n) + PcRank(threads[t], n) == RankSum(threads, n) + PcRank(pc, n)
  {
    var k := |threads| - 1;
    if t < k {
      RankSumUpdate(threads[..k], n, t, pc);
      assert threads[t := pc][..k] == threads[..k][t := pc];
    } else {
      assert threads[t := pc][..k] == threads[..k];
    }
  }

  /** A step of the system by a thread inside an operation moves that thread alone. */
  lemma BusyStep(cfg: Config, g: System, w: Witness, c: Contents, t: Tid)
    requires Coupled(cfg, g, w, c) && t < |cfg.node| && !g.s.threads[t].Idle?
    ensures AtQueue(g.clients[t]) && Enabled(cfg, g, Choice(t, 0, 0))
    ensures var g' := SystemStep(cfg, g, Choice(t, 0, 0));
            && |g'.s.queues| == |g.s.queues| && g'.s.threads == g.s.threads[t := g'.s.threads[t]]
            && g'.s == if g.s.threads[t].Done? then Finish(g.s, t) else Step(g.s, t)
  {
    BusyCanMove(cfg, g, w, c, Choice(t, 0, 0));
    if Working(g.s, t) { var w1, c1 := StepRefines(g.s, w, c, t); }
  }

  /** A thread inside an operation whose step brings the operations closer to their end. */
  lemma SomeoneAdvances(cfg: Config, g: System, w: Witness, c: Contents, u: Tid) returns (t: Tid)
    requires Coupled(cfg, g, w, c) && u < |cfg.node| && !g.s.threads[u].Idle?
    ensures t < |cfg.node| && !g.s.threads[t].Idle? && Enabled(cfg, g, Choice(t, 0, 0)) && AtQueue(g.clients[t])
    ensures var g' := SystemStep(cfg, g, Choice(t, 0, 0));
            && |g'.s.queues| == |g.s.queues| && g'.s.threads == g.s.threads[t := g'.s.threads[t]]
            && PcRank(g'.s.threads[t], |g.s.queues|) < PcRank(g.s.threads[t], |g.s.queues|)
  {
    t := u;
    if !g.s.threads[u].Done? {
      t := NoDeadlock(g.s, w, c, u);
      PcFalls(g.s, w, c, t);
    }
    BusyStep(cfg, g, w, c, t);
  }

  ghost predicate AllIdle(g: System) { forall t :: 0 <= t < |g.s.threads| ==> g.s.threads[t].Idle? }

  /** All operations under way can be brought to their end. */
  lemma {:induction false} EndOperations(cfg: Config, f: System, run: seq<Choice>, g: System, w: Witness, c: Contents,
                                         keys: multiset<int>)
    returns (g': System, w': Witness, c': Contents)
    requires Continues(cfg, f, run, g) && GoodSystem(cfg, g, w, c, keys)
    ensures Continues(cfg, f, run, g') && GoodSystem(cfg, g', w', c', keys) && AllIdle(g')
    decreases RankSum(g.s.threads, |g.s.queues|)
  {
    if AllIdle(g) {
      g', w', c' := g, w, c;
    } else {
      var u :| 0 <= u < |g.s.threads| && !g.s.threads[u].Idle?;
      var t := SomeoneAdvances(cfg, g, w, c, u);
      var ch := Choice(t, 0, 0);
      var g1 := SystemStep(cfg, g, ch);
      ContinueOn(cfg, f, run, g, ch);
      var w1, c1 := GoodSystemStep(cfg, g, w, c, keys, ch);
      RankSumUpdate(g.s.threads, |g.s.queues|, t, g1.s.threads[t]);
      g', w', c' := EndOperations(cfg, f, run, g1, w1, c1, keys);
    }
  }

  // --------------------------------------------- one step of the protocol, in full

  ghost predicate OthersIdle(g: System, t: Tid)
  { forall u :: 0 <= u < |g.s.threads| && u != t ==> g.s.threads[u].Idle? }

  /** What is left of the protocol's step when thread t is inside a queue operation. */
  ghost predicate Completes(cfg: Config, g: System, c: Contents, t: Tid, p': Proto) {
    && ConfigOkNodes(cfg) && |g.clients| == |g.s.threads| == |cfg.node| && t < |cfg.node|
    && if g.s.threads[t].Idle? || Promise(g.s.threads[t]).Some? then p' == Abs(cfg, g, c)
       else CanStep(cfg, Abs(cfg, g, c), t) && p' == ClientStep(cfg, Abs(cfg, g, c), t)
  }

  lemma OnlyBusyMoves(cfg: Config, g: System, w: Witness, c: Contents, t: Tid)
    requires Coupled(cfg, g, w, c) && t < |cfg.node| && OthersIdle(g, t) && !g.s.threads[t].Idle?
    ensures Enabled(cfg, g, Choice(t, 0, 0)) && AtQueue(g.clients[t])
    ensures var g' := SystemStep(cfg, g, Choice(t, 0, 0));
            && OthersIdle(g', t) && |g'.s.queues| == |g.s.queues|
            && PcRank(g'.s.threads[t], |g.s.queues|) < PcRank(g.s.threads[t], |g.s.queues|)
  {
    var u := SomeoneAdvances(cfg, g, w, c, t);
    assert u == t;
  }

  /** A step inside the operation leaves the rest of the protocol's step to do. */
  lemma CompletesOn(cfg: Config, g: System, w: Witness, c: Contents, t: Tid, p': Proto)
    returns (w': Witness, c': Contents)
    requires Coupled(cfg, g, w, c) && t < |cfg.node| && !g.s.threads[t].Idle? && Completes(cfg, g, c, t, p')
    requires Enabled(cfg, g, Choice(t, 0, 0)) && AtQueue(g.clients[t])
    ensures Coupled(cfg, SystemStep(cfg, g, Choice(t, 0, 0)), w', c')
    ensures Completes(cfg, SystemStep(cfg, g, Choice(t, 0, 0)), c', t, p')
  {
    var ch := Choice(t, 0, 0);
    w', c' := w, c;
    if g.s.threads[t].Done? {
      FinishSimulates(cfg, g, w, c, ch);
    } else {
      w', c' := MoveSimulates(cfg, g, w, c, ch);
      PromiseStays(g.s, t);
    }
  }

  lemma PromiseStays(s: State, t: Tid)
    requires Working(s, t) && Defined(s, t)
    ensures !Step(s, t).threads[t].Idle?
    ensures Promise(s.threads[t]).Some? ==> Promise(Step(s, t).threads[t]).Some?
  {}

  lemma {:induction false} FinishAlone(cfg: Config, f: System, run: seq<Choice>, g: System, w: Witness, c: Contents,
                                       t: Tid, p': Proto)
    returns (g': System, w': Witness, c': Contents)
    requires Continues(cfg, f, run, g) && Coupled(cfg, g, w, c) && t < |cfg.node| && OthersIdle(g, t)
    requires Completes(cfg, g, c, t, p')
    ensures Continues(cfg, f, run, g') && Coupled(cfg, g', w', c') && AllIdle(g') && Abs(cfg, g', c') == p'
    decreases PcRank(g.s.threads[t], |g.s.queues|)
  {
    if g.s.threads[t].Idle? {
      g', w', c' := g, w, c;
    } else {
      OnlyBusyMoves(cfg, g, w, c, t);
      ContinueOn(cfg, f, run, g, Choice(t, 0, 0));
      var w1, c1 := CompletesOn(cfg, g, w, c, t, p');
      g', w', c' := FinishAlone(cfg, f, run, SystemStep(cfg, g, Choice(t, 0, 0)), w1, c1, t, p');
    }
  }

  lemma IdleAbs(cfg: Config, g: System, c: Contents)
    requires ConfigOkNodes(cfg) && |g.clients| == |g.s.threads| == |cfg.node| && AllIdle(g)
    ensures Abs(cfg, g, c) == View(g, c)
  {
    assert AbsClients(cfg, g) == g.clients;
  }

  /** A thread alone can begin the queue operation its client is about to do. */
  lemma BeginAlone(cfg: Config, f: System, run: seq<Choice>, g: System, w: Witness, c: Contents, t: Tid)
    returns (g': System, w': Witness)
    requires Continues(cfg, f, run, g) && Coupled(cfg, g, w, c) && t < |cfg.node| && AllIdle(g) && AtQueue(g.clients[t])
    requires ClientOk(cfg, t, g.clients[t]) && CanStep(cfg, Abs(cfg, g, c), t)
    ensures Continues(cfg, f, run, g') && Coupled(cfg, g', w', c) && OthersIdle(g', t)
    ensures Completes(cfg, g', c, t, ClientStep(cfg, Abs(cfg, g, c), t))
  {
    var node := FreshNode(g.s.heap.Keys);
    var ch := Choice(t, node, 0);
    IdleCanMove(cfg, g, w, c, ch);
    ContinueOn(cfg, f, run, g, ch);
    g' := SystemStep(cfg, g, ch);
    w' := StartSimulates(cfg, g, w, c, ch);
    BegunIsPending(g.s, t, NextRequest(cfg, t, g.clients[t]).value, ch.node);
  }

  lemma BegunIsPending(s: State, t: Tid, r: Request, node: NodeId)
    requires CanStart(s, t, r, node)
    ensures var s' := Start(s, t, r, node, 0);
            !s'.threads[t].Idle? && Promise(s'.threads[t]).None? && s'.threads == s.threads[t := s'.threads[t]]
  {}

  /** Outside all operations the system can make any step of the protocol. */
  lemma ProtocolStep(cfg: Config, f: System, run: seq<Choice>, g: System, w: Witness, c: Contents,
                     keys: multiset<int>, t: Tid)
    returns (g': System, w': Witness, c': Contents)
    requires Continues(cfg, f, run, g) && GoodSystem(cfg, g, w, c, keys) && AllIdle(g) && t < |cfg.node|
    ensures Continues(cfg, f, run, g') && GoodSystem(cfg, g', w', c', keys) && AllIdle(g')
    ensures CanStep(cfg, Abs(cfg, g, c), t) && Abs(cfg, g', c') == ClientStep(cfg, Abs(cfg, g, c), t)
  {
    GoodStep(cfg, Abs(cfg, g, c), keys, t);
    GoodClient(cfg, Abs(cfg, g, c), keys, t);
    IdleAbs(cfg, g, c);
    if AtQueue(g.clients[t]) {
      var g1, w1 := BeginAlone(cfg, f, run, g, w, c, t);
      g', w', c' := FinishAlone(cfg, f, run, g1, w1, c, t, ClientStep(cfg, Abs(cfg, g, c), t));
    } else {
      LocalSimulates(cfg, g, w, c, Choice(t, 0, 0));
      ContinueOn(cfg, f, run, g, Choice(t, 0, 0));
      g', w', c' := SystemStep(cfg, g, Choice(t, 0, 0)), w, c;
    }
  }

  lemma {:induction false} FollowSchedule(cfg: Config, f: System, run: seq<Choice>, g: System, w: Witness, c: Contents,
                                          keys: multiset<int>, sched: seq<Tid>)
    returns (g': System, w': Witness, c': Contents)
    requires Continues(cfg, f, run, g) && GoodSystem(cfg, g, w, c, keys) && AllIdle(g)
    requires Sized(cfg, Abs(cfg, g, c)) && IsSchedule(cfg, sched)
    ensures Continues(cfg, f, run, g') && GoodSystem(cfg, g', w', c', keys) && AllIdle(g')
    ensures Abs(cfg, g', c') == RunOf(cfg, Abs(cfg, g, c), sched)
    decreases |sched|
  {
    if sched == [] {
      g', w', c' := g, w, c;
    } else {
      var g1, w1, c1 := ProtocolStep(cfg, f, run, g, w, c, keys, sched[0]);
      SizedCanStep(cfg, Abs(cfg, g, c), sched[0]);
      g', w', c' := FollowSchedule(cfg, f, run, g1, w1, c1, keys, sched[1..]);
    }
  }

  // ------------------------------------------------------------------ main result

  /** Every run can be continued until all threads have finished; exactly one of them has then
      published, and what it published is all keys, sorted. */
  lemma EveryRunCanFinish(cfg: Config, f: System, w: Witness, c: Contents, run: seq<Choice>) returns (run': seq<Choice>)
    requires Ready(cfg, f, w, c) && IsRun(cfg, f, run)
    ensures run <= run' && IsRun(cfg, f, run')
    ensures var g := After(cfg, f, run');
            && (forall t :: 0 <= t < |g.clients| ==> g.clients[t].Gone?)
            && |g.out| == 1 && g.out[0] == Sort(g.out[0]) && multiset(g.out[0]) == QueueKeys(c)
  {
    var keys, g0 := QueueKeys(c), After(cfg, f, run);
    var w0, c0 := RunIsGood(cfg, f, w, c, run);
    assert Continues(cfg, f, run, g0);
    var g1, w1, c1 := EndOperations(cfg, f, run, g0, w0, c0, keys);
    var p := EveryoneCanFinish(cfg, Abs(cfg, g1, c1), keys);
    var sched :| IsSchedule(cfg, sched) && RunOf(cfg, Abs(cfg, g1, c1), sched) == p;
    var g2, w2, c2 := FollowSchedule(cfg, f, run, g1, w1, c1, keys, sched);
    IdleAbs(cfg, g2, c2);
    assert p.clients == g2.clients;
    run' :| run <= run' && IsRun(cfg, f, run') && After(cfg, f, run') == g2;
    EveryRunSorts(cfg, f, w, c, run');
  }
}
