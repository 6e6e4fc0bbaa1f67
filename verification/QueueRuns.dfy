/** Whole runs of the queue operations: any number of threads, any interleaving,
    any requests. Every run has a sequential history of atomic FIFO operations in
    which each thread did what it did and got what it got, in an order that agrees with
    real time. */
module QueueRuns {
  import opened Chunks
  import opened WorkQueue

  type Event = (Tid, Request, Response)

  datatype Action = Begin(t: Tid, r: Request, node: NodeId, garbage: NodeId) | Move(t: Tid) | End(t: Tid)

  /** The machine with the operations of each thread written down: those returned,
      and the one in progress. */
  datatype Logged = Logged(s: State, current: seq<Option<Request>>, log: seq<seq<(Request, Response)>>)

  ghost predicate Enabled(l: Logged, a: Action) {
    && |l.current| == |l.log| == |l.s.threads|
    && match a
       case Begin(t, r, node, _) => CanStart(l.s, t, r, node)
       case Move(t) => Working(l.s, t) && Defined(l.s, t)
       case End(t) => t < |l.s.threads| && l.s.threads[t].Done? && l.current[t].Some?
  }

  ghost function Do(l: Logged, a: Action): Logged
    requires Enabled(l, a)
  {
    match a
    case Begin(t, r, node, garbage) =>
      l.(s := Start(l.s, t, r, node, garbage), current := l.current[t := Some(r)])
    case Move(t) => l.(s := Step(l.s, t))
    case End(t) =>
      l.(s := Finish(l.s, t), current := l.current[t := None],
         log := l.log[t := l.log[t] + [(l.current[t].value, l.s.threads[t].resp)]])
  }

  ghost predicate IsRun(l: Logged, acts: seq<Action>)
    decreases |acts|, 0
  {
    if acts == [] then true
    else IsRun(l, acts[..|acts| - 1]) && Enabled(After(l, acts[..|acts| - 1]), acts[|acts| - 1])
  }

  ghost function After(l: Logged, acts: seq<Action>): Logged
    requires IsRun(l, acts)
    decreases |acts|, 1
  {
    if acts == [] then l else Do(After(l, acts[..|acts| - 1]), acts[|acts| - 1])
  }

  /** `h` is a sequence of atomic operations that turns the contents c into c'. */
  ghost predicate Legal(c: Contents, h: seq<Event>, c': Contents) {
    if h == [] then c' == c
    else
      var e := h[|h| - 1];
      exists mid :: Legal(c, h[..|h| - 1], mid)
        && (e.1.SizeAll? || e.1.q < |mid|) && Apply(mid, e.1) == (c', e.2)
  }

  /** The operations of thread t in the history. */
  function Of(h: seq<Event>, t: Tid): seq<(Request, Response)> {
    if h == [] then []
    else
      var e, before := h[|h| - 1], Of(h[..|h| - 1], t);
      if e.0 == t then before + [(e.1, e.2)] else before
  }

  /** The operations of thread t that have taken effect: all it returned from, and perhaps
      the one it is still in. */
  ghost function InEffect(l: Logged, t: Tid): seq<(Request, Response)>
    requires t < |l.s.threads| && |l.current| == |l.log| == |l.s.threads|
  {
    var promise := Promise(l.s.threads[t]);
    if promise.Some? && l.current[t].Some? then l.log[t] + [(l.current[t].value, promise.value)] else l.log[t]
  }

  /** The history has what thread t has had take effect, with the answers t got or will get. */
  ghost predicate Matches(l: Logged, h: seq<Event>, t: Tid)
    requires t < |l.s.threads| && |l.current| == |l.log| == |l.s.threads|
  {
    var pc := l.s.threads[t];
    && (pc.Idle? || l.current[t].Some?)
    && (Promise(pc) == None && !pc.Idle? ==> Serving(pc) == l.current[t])
    && Of(h, t) == InEffect(l, t)
  }

  lemma OfExtend(h: seq<Event>, e: Event, t: Tid)
    ensures Of(h + [e], t) == if e.0 == t then Of(h, t) + [(e.1, e.2)] else Of(h, t)
  {
    assert (h + [e])[..|h|] == h;
  }

  lemma LegalExtend(c: Contents, h: seq<Event>, mid: Contents, e: Event, c': Contents)
    requires Legal(c, h, mid) && (e.1.SizeAll? || e.1.q < |mid|) && Apply(mid, e.1) == (c', e.2)
    ensures Legal(c, h + [e], c')
  {
    assert (h + [e])[..|h|] == h;
  }

  /** Every event is an operation of one of the n threads. */
  ghost predicate ByThreads(h: seq<Event>, n: nat) {
    forall i :: 0 <= i < |h| ==> h[i].0 < n
  }

  /** The history accounts for what every thread did, and for nothing else. */
  ghost predicate Explained(l: Logged, w: Witness, c0: Contents, h: seq<Event>, c: Contents) {
    && |l.current| == |l.log| == |l.s.threads|
    && Inv(l.s, w, c) && Legal(c0, h, c) && ByThreads(h, |l.s.threads|)
    && forall t :: 0 <= t < |l.s.threads| ==> Matches(l, h, t)
  }

  /** Only thread t has moved, from l to l'. */
  ghost predicate OnlyMoved(l: Logged, l': Logged, t: Tid) {
    && |l'.s.threads| == |l.s.threads| && l'.current == l.current && l'.log == l.log
    && |l.current| == |l.log| == |l.s.threads|
    && forall u :: 0 <= u < |l.s.threads| && u != t ==> l'.s.threads[u] == l.s.threads[u]
  }

  lemma MoveMovesOne(l: Logged, t: Tid)
    requires Enabled(l, Move(t))
    ensures OnlyMoved(l, Do(l, Move(t)), t)
  {}

  lemma OthersMatch(l: Logged, l': Logged, h: seq<Event>, h': seq<Event>, t: Tid)
    requires OnlyMoved(l, l', t) && t < |l.s.threads| && Matches(l', h', t)
    requires forall u :: 0 <= u < |l.s.threads| ==> Matches(l, h, u) && (u != t ==> Of(h', u) == Of(h, u))
    ensures forall u :: 0 <= u < |l.s.threads| ==> Matches(l', h', u)
  {
    forall u | 0 <= u < |l.s.threads| && u != t ensures Matches(l', h', u) { assert Matches(l, h, u); }
  }

  /** A step that takes effect is one more event. */
  lemma EffectMatches(l: Logged, l': Logged, h: seq<Event>, e: Event)
    requires OnlyMoved(l, l', e.0) && e.0 < |l.s.threads|
    requires forall u :: 0 <= u < |l.s.threads| ==> Matches(l, h, u)
    requires Serving(l.s.threads[e.0]) == Some(e.1) && Promise(l.s.threads[e.0]) == None && !l.s.threads[e.0].Idle?
    requires Promise(l'.s.threads[e.0]) == Some(e.2)
    ensures forall u :: 0 <= u < |l.s.threads| ==> Matches(l', h + [e], u)
  {
    assert Matches(l, h, e.0);
    forall u: Tid ensures Of(h + [e], u) == if u == e.0 then Of(h, u) + [(e.1, e.2)] else Of(h, u) {
      OfExtend(h, e, u);
    }
    OthersMatch(l, l', h, h + [e], e.0);
  }

  lemma MoveExplained(l: Logged, w: Witness, c0: Contents, h: seq<Event>, c: Contents, t: Tid)
    returns (w': Witness, h': seq<Event>, c': Contents)
    requires Explained(l, w, c0, h, c) && Enabled(l, Move(t))
    ensures Explained(Do(l, Move(t)), w', c0, h', c') && h <= h'
  {
    var l', pc := Do(l, Move(t)), l.s.threads[t];
    w', c' := StepRefines(l.s, w, c, t);
    MoveMovesOne(l, t);
    assert Matches(l, h, t);
    if TakesEffect(l.s, t) {
      var e := (t, Serving(pc).value, Promise(l'.s.threads[t]).value);
      LegalExtend(c0, h, c, e, c');
      EffectMatches(l, l', h, e);
      h' := h + [e];
    } else {
      OthersMatch(l, l', h, h, t);
      h' := h;
    }
  }

  lemma BeginExplained(l: Logged, w: Witness, c0: Contents, h: seq<Event>, c: Contents, a: Action)
    returns (w': Witness)
    requires Explained(l, w, c0, h, c) && Enabled(l, a) && a.Begin?
    ensures Explained(Do(l, a), w', c0, h, c)
  {
    var l' := Do(l, a);
    assert Matches(l, h, a.t);
    w' := StartRefines(l.s, w, c, a.t, a.r, a.node, a.garbage);
    forall u | 0 <= u < |l.s.threads| ensures Matches(l', h, u) {
      assert Matches(l, h, u);
      assert u != a.t ==> l'.s.threads[u] == l.s.threads[u];
    }
  }

  lemma EndExplained(l: Logged, w: Witness, c0: Contents, h: seq<Event>, c: Contents, t: Tid)
    requires Explained(l, w, c0, h, c) && Enabled(l, End(t))
    ensures Explained(Do(l, End(t)), w, c0, h, c)
  {
    var l' := Do(l, End(t));
    assert Matches(l, h, t);
    FinishRefines(l.s, w, c, t);
    forall u | 0 <= u < |l.s.threads| ensures Matches(l', h, u) {
      assert Matches(l, h, u);
      assert u != t ==> l'.s.threads[u] == l.s.threads[u];
    }
  }

  /** One action extends the history by at most one event. */
  lemma ActionExplained(l: Logged, w: Witness, c0: Contents, h: seq<Event>, c: Contents, a: Action)
    returns (w': Witness, h': seq<Event>, c': Contents)
    requires Explained(l, w, c0, h, c) && Enabled(l, a)
    ensures Explained(Do(l, a), w', c0, h', c') && h <= h'
  {
    w', h', c' := w, h, c;
    match a
    case Begin(_, _, _, _) => w' := BeginExplained(l, w, c0, h, c, a);
    case Move(t) => w', h', c' := MoveExplained(l, w, c0, h, c, t);
    case End(t) => EndExplained(l, w, c0, h, c, t);
  }

  // ------------------------------------------------------------ linearizability

  lemma {:induction false} RunPrefix(l: Logged, acts: seq<Action>, k: nat)
    requires IsRun(l, acts) && k <= |acts|
    ensures IsRun(l, acts[..k])
  {
    var n := |acts| - 1;
    if k <= n {
      RunPrefix(l, acts[..n], k);
      assert acts[..n][..k] == acts[..k];
    } else {
      assert acts[..k] == acts;
    }
  }

  /** The first k actions are explained by h. */
  ghost predicate ExplainedAt(l: Logged, acts: seq<Action>, k: nat, c0: Contents, h: seq<Event>) {
    && k <= |acts| && IsRun(l, acts[..k])
    && exists w, c :: Explained(After(l, acts[..k]), w, c0, h, c)
  }

  ghost predicate Growing(hs: seq<seq<Event>>) {
    forall i, j :: 0 <= i <= j < |hs| ==> hs[i] <= hs[j]
  }

  /** One history per prefix of the run, none of which takes back what an earlier one says. */
  ghost predicate Histories(l: Logged, acts: seq<Action>, c0: Contents, hs: seq<seq<Event>>) {
    && |hs| == |acts| + 1
    && (forall k :: 0 <= k <= |acts| ==> ExplainedAt(l, acts, k, c0, hs[k]))
    && Growing(hs)
  }

  lemma StartExplained(s: State, l: Logged, c0: Contents) returns (w: Witness)
    requires Fresh(s) && c0 == seq(|s.queues|, _ => [])
    requires l == Logged(s, seq(|s.threads|, _ => None), seq(|s.threads|, _ => []))
    ensures Explained(l, w, c0, [], c0)
  {
    w := FreshOk(s);
    assert c0 == seq(|s.queues|, q => []);
  }

  lemma {:induction false} RunHistories(s: State, l: Logged, acts: seq<Action>, c0: Contents)
    returns (w: Witness, hs: seq<seq<Event>>, c: Contents)
    requires Fresh(s) && c0 == seq(|s.queues|, _ => [])
    requires l == Logged(s, seq(|s.threads|, _ => None), seq(|s.threads|, _ => []))
    requires IsRun(l, acts)
    ensures Histories(l, acts, c0, hs) && Explained(After(l, acts), w, c0, hs[|acts|], c)
  {
    if acts == [] {
      w := StartExplained(s, l, c0);
      hs, c := [[]], c0;
      FirstHistory(l, acts, w, c0);
    } else {
      var n := |acts| - 1;
      var w1, hs1, c1 := RunHistories(s, l, acts[..n], c0);
      var h;
      w, h, c := ActionExplained(After(l, acts[..n]), w1, c0, hs1[n], c1, acts[n]);
      hs := hs1 + [h];
      NextExplained(l, acts, w, c0, h, c);
      HistoriesGrow(l, acts, c0, hs1, h, n);
    }
  }

  lemma FirstHistory(l: Logged, acts: seq<Action>, w: Witness, c0: Contents)
    requires acts == [] && Explained(l, w, c0, [], c0)
    ensures Histories(l, acts, c0, [[]])
  {
    NextExplained(l, acts, w, c0, [], c0);
  }

  lemma NextExplained(l: Logged, acts: seq<Action>, w: Witness, c0: Contents, h: seq<Event>, c: Contents)
    requires IsRun(l, acts) && Explained(After(l, acts), w, c0, h, c)
    ensures ExplainedAt(l, acts, |acts|, c0, h)
  {
    assert acts[..|acts|] == acts;
  }

  lemma GrowingLonger(hs: seq<seq<Event>>, h: seq<Event>, n: nat)
    requires |hs| == n + 1 && Growing(hs) && hs[n] <= h
    ensures Growing(hs + [h])
  {
    forall i, j | 0 <= i <= j <= n + 1 ensures (hs + [h])[i] <= (hs + [h])[j] {
      if i <= n { assert hs[i] <= hs[n]; }
    }
  }

  lemma ExplainedNext(l: Logged, acts: seq<Action>, c0: Contents, hs: seq<seq<Event>>, h: seq<Event>, n: nat, k: nat)
    requires |acts| == n + 1 && Histories(l, acts[..n], c0, hs) && ExplainedAt(l, acts, |acts|, c0, h) && k <= n + 1
    ensures ExplainedAt(l, acts, k, c0, (hs + [h])[k])
  {
    if k <= n { ExplainedLonger(l, acts, k, c0, hs[k], n); }
  }

  lemma HistoriesGrow(l: Logged, acts: seq<Action>, c0: Contents, hs: seq<seq<Event>>, h: seq<Event>, n: nat)
    requires |acts| == n + 1 && Histories(l, acts[..n], c0, hs) && hs[n] <= h && ExplainedAt(l, acts, |acts|, c0, h)
    ensures Histories(l, acts, c0, hs + [h])
  {
    forall k | 0 <= k <= |acts| ensures ExplainedAt(l, acts, k, c0, (hs + [h])[k]) {
      ExplainedNext(l, acts, c0, hs, h, n, k);
    }
    GrowingLonger(hs, h, n);
  }

  lemma ExplainedLonger(l: Logged, acts: seq<Action>, k: nat, c0: Contents, h: seq<Event>, n: nat)
    requires k <= n <= |acts| && ExplainedAt(l, acts[..n], k, c0, h)
    ensures ExplainedAt(l, acts, k, c0, h)
  {
    assert acts[..n][..k] == acts[..k];
  }

  /** Event p of the history is thread t's operation number n. */
  ghost predicate IsOp(h: seq<Event>, t: Tid, n: nat, p: nat) {
    p < |h| && h[p].0 == t && |Of(h[..p], t)| == n
  }

  /** How many operations the acting thread has returned from when action k comes: the
      number of the operation that the action begins or ends. */
  ghost function OpNumber(l: Logged, acts: seq<Action>, k: nat): nat
    requires IsRun(l, acts) && k < |acts|
  {
    RunPrefix(l, acts, k);
    var before := After(l, acts[..k]);
    if acts[k].t < |before.log| then |before.log[acts[k].t]| else 0
  }

  /** An operation that has returned before another one begins comes before it in the history,
      and every operation that has returned is in it. */
  ghost predicate RealTime(l: Logged, acts: seq<Action>, h: seq<Event>)
    requires IsRun(l, acts)
  {
    && (forall i :: 0 <= i < |acts| && acts[i].End? ==> exists p :: IsOp(h, acts[i].t, OpNumber(l, acts, i), p))
    && (forall i, j, p, r ::
          (&& 0 <= i < j < |acts| && acts[i].End? && acts[j].Begin?
           && IsOp(h, acts[i].t, OpNumber(l, acts, i), p) && IsOp(h, acts[j].t, OpNumber(l, acts, j), r)) ==> p < r)
  }

  lemma {:induction false} OfGrows(h: seq<Event>, t: Tid, n: nat)
    requires n <= |h|
    ensures |Of(h[..n], t)| <= |Of(h, t)|
  {
    var k := |h| - 1;
    if n <= k {
      OfGrows(h[..k], t, n);
      assert h[..k][..n] == h[..n];
    } else {
      assert h[..n] == h;
    }
  }

  lemma OfPrefix(h: seq<Event>, g: seq<Event>, t: Tid, p: nat)
    requires g <= h && |g| <= p <= |h|
    ensures |Of(g, t)| <= |Of(h[..p], t)|
  {
    assert h[..p][..|g|] == g;
    OfGrows(h[..p], t, |g|);
  }

  /** An operation a prefix of the history counts lies in it. */
  lemma OpInside(h: seq<Event>, g: seq<Event>, t: Tid, n: nat, p: nat)
    requires g <= h && n < |Of(g, t)| && IsOp(h, t, n, p)
    ensures p < |g|
  {
    if p >= |g| { OfPrefix(h, g, t, p); }
  }

  lemma OpOutside(h: seq<Event>, g: seq<Event>, t: Tid, n: nat, p: nat)
    requires g <= h && |Of(g, t)| <= n && IsOp(h, t, n, p)
    ensures |g| <= p
  {
    if p < |g| {
      var q := p + 1;
      assert g[..p] == h[..p] && g[..q] == g[..p] + [h[p]];
      OfExtend(g[..p], h[p], t);
      OfGrows(g, t, q);
    }
  }

  lemma {:induction false} OpExists(h: seq<Event>, t: Tid, n: nat) returns (p: nat)
    requires n < |Of(h, t)|
    ensures IsOp(h, t, n, p)
  {
    var k := |h| - 1;
    if n < |Of(h[..k], t)| {
      p := OpExists(h[..k], t, n);
      assert h[..k][..p] == h[..p];
    } else {
      p := k;
    }
  }

  /** When an operation has returned, the history so far has it. */
  lemma EndedIsIn(l: Logged, acts: seq<Action>, c0: Contents, hs: seq<seq<Event>>, i: nat)
    requires IsRun(l, acts) && Histories(l, acts, c0, hs) && i < |acts| && acts[i].End?
    ensures OpNumber(l, acts, i) < |Of(hs[i], acts[i].t)|
  {
    EnabledAt(l, acts, i);
    assert ExplainedAt(l, acts, i, c0, hs[i]);
    var w, c :| Explained(After(l, acts[..i]), w, c0, hs[i], c);
    EndingHasEvent(After(l, acts[..i]), w, c0, hs[i], c, acts[i].t);
  }

  lemma EndingHasEvent(l: Logged, w: Witness, c0: Contents, h: seq<Event>, c: Contents, t: Tid)
    requires Explained(l, w, c0, h, c) && Enabled(l, End(t))
    ensures t < |l.log| && |l.log[t]| < |Of(h, t)|
  {
    assert Matches(l, h, t);
  }

  lemma EnabledAt(l: Logged, acts: seq<Action>, k: nat)
    requires IsRun(l, acts) && k < |acts|
    ensures IsRun(l, acts[..k]) && Enabled(After(l, acts[..k]), acts[k])
  {
    var next := acts[..k + 1];
    RunPrefix(l, acts, k + 1);
    assert next[..k] == acts[..k] && next[k] == acts[k];
  }

  /** When one begins, it does not. */
  lemma BegunIsNotIn(l: Logged, acts: seq<Action>, c0: Contents, hs: seq<seq<Event>>, j: nat)
    requires IsRun(l, acts) && Histories(l, acts, c0, hs) && j < |acts| && acts[j].Begin?
    ensures |Of(hs[j], acts[j].t)| == OpNumber(l, acts, j)
  {
    EnabledAt(l, acts, j);
    assert ExplainedAt(l, acts, j, c0, hs[j]);
    var w, c :| Explained(After(l, acts[..j]), w, c0, hs[j], c);
    assert Matches(After(l, acts[..j]), hs[j], acts[j].t);
  }

  lemma HistoriesAreRealTime(l: Logged, acts: seq<Action>, c0: Contents, hs: seq<seq<Event>>)
    requires IsRun(l, acts) && Histories(l, acts, c0, hs)
    ensures RealTime(l, acts, hs[|acts|])
  {
    var h := hs[|acts|];
    forall i | 0 <= i < |acts| && acts[i].End? ensures exists p :: IsOp(h, acts[i].t, OpNumber(l, acts, i), p) {
      EndedIsIn(l, acts, c0, hs, i);
      OfGrows(h, acts[i].t, |hs[i]|);
      assert hs[i] <= h && h[..|hs[i]|] == hs[i];
      var p := OpExists(h, acts[i].t, OpNumber(l, acts, i));
    }
    forall i, j, p, r | 0 <= i < j < |acts| && acts[i].End? && acts[j].Begin?
        && IsOp(h, acts[i].t, OpNumber(l, acts, i), p) && IsOp(h, acts[j].t, OpNumber(l, acts, j), r)
      ensures p < r
    {
      EndedIsIn(l, acts, c0, hs, i);
      BegunIsNotIn(l, acts, c0, hs, j);
      assert hs[i] <= hs[j] && hs[j] <= h && hs[i] <= h;
      OpInside(h, hs[i], acts[i].t, OpNumber(l, acts, i), p);
      OpOutside(h, hs[j], acts[j].t, OpNumber(l, acts, j), r);
    }
  }

  /** Linearizability, for every run from fresh queues: a legal sequential history with each
      thread's operations and answers, in which an operation that returned before another
      began comes first. */
  lemma RunsAreLinearizable(s: State, l: Logged, acts: seq<Action>) returns (w: Witness, h: seq<Event>, c: Contents)
    requires Fresh(s)
    requires l == Logged(s, seq(|s.threads|, _ => None), seq(|s.threads|, _ => []))
    requires IsRun(l, acts)
    ensures Explained(After(l, acts), w, seq(|s.queues|, _ => []), h, c) && RealTime(l, acts, h)
  {
    var c0: Contents := seq(|s.queues|, _ => []);
    var hs;
    w, hs, c := RunHistories(s, l, acts, c0);
    h := hs[|acts|];
    HistoriesAreRealTime(l, acts, c0, hs);
  }

  // ---------------------------------------------------------- states of every run

  lemma ReachedState(s: State, l: Logged, acts: seq<Action>) returns (w: Witness, c: Contents)
    requires Fresh(s)
    requires l == Logged(s, seq(|s.threads|, _ => None), seq(|s.threads|, _ => []))
    requires IsRun(l, acts)
    ensures Inv(After(l, acts).s, w, c)
  {
    var hs;
    w, hs, c := RunHistories(s, l, acts, seq(|s.queues|, _ => []));
  }

  /** Two threads are never inside the same queue's lock. */
  lemma NeverTwoInside(s: State, l: Logged, acts: seq<Action>, t: Tid, u: Tid, q: nat)
    requires Fresh(s)
    requires l == Logged(s, seq(|s.threads|, _ => None), seq(|s.threads|, _ => []))
    requires IsRun(l, acts)
    requires var s' := After(l, acts).s;
             t < |s'.threads| && u < |s'.threads| && q < |s'.queues| && Holds(s'.threads[t], q)
                 && Holds(s'.threads[u], q)
    ensures t == u
  {
    var w, c := ReachedState(s, l, acts);
    MutualExclusion(After(l, acts).s, w, c, t, u, q);
  }

  /** From the dummy at the head of an unlocked queue `size` items are linked, up to the tail. */
  ghost predicate IsList(heap: map<NodeId, Node>, qu: Queue, ch: seq<NodeId>, items: seq<Chunk>) {
    Linked(heap, ch, items) && qu.size == |items| && ch[0] == qu.head && ch[|items|] == qu.tail
  }

  lemma UnlockedQueuesAreLists(s: State, l: Logged, acts: seq<Action>, q: nat)
    requires Fresh(s)
    requires l == Logged(s, seq(|s.threads|, _ => None), seq(|s.threads|, _ => []))
    requires IsRun(l, acts)
    requires q < |After(l, acts).s.queues| && After(l, acts).s.queues[q].lock == None
    ensures exists ch, items :: IsList(After(l, acts).s.heap, After(l, acts).s.queues[q], ch, items)
  {
    var w, c := ReachedState(s, l, acts);
    UnlockedList(After(l, acts).s, w, c, q);
    assert IsList(After(l, acts).s.heap, After(l, acts).s.queues[q], w.chains[q], c[q]);
  }

  /** While some operation is under way, some thread can take a step that changes its place. */
  lemma NeverDeadlocked(s: State, l: Logged, acts: seq<Action>, u: Tid) returns (t: Tid)
    requires Fresh(s)
    requires l == Logged(s, seq(|s.threads|, _ => None), seq(|s.threads|, _ => []))
    requires IsRun(l, acts) && Working(After(l, acts).s, u)
    ensures var s' := After(l, acts).s; Working(s', t) && Defined(s', t) && Step(s', t).threads[t] != s'.threads[t]
  {
    var w, c := ReachedState(s, l, acts);
    t := NoDeadlock(After(l, acts).s, w, c, u);
  }

  // ------------------------------------------------------------ first in, first out

  /** An item and the thread that put it in or got it. */
  type Transfer = (Tid, Chunk)

  /** The items put into queue q, and those taken from it, in order. */
  function Puts(h: seq<Event>, q: nat): seq<Transfer> {
    if h == [] then []
    else
      var e, before := h[|h| - 1], Puts(h[..|h| - 1], q);
      if e.1.Enqueue? && e.1.q == q then before + [(e.0, e.1.item)] else before
  }

  function Takes(h: seq<Event>, q: nat): seq<Transfer> {
    if h == [] then []
    else
      var e, before := h[|h| - 1], Takes(h[..|h| - 1], q);
      if e.1.Dequeue? && e.1.q == q && e.2.Dequeued? && e.2.item.Some? then before + [(e.0, e.2.item.value)] else before
  }

  function Items(xs: seq<Transfer>): seq<Chunk> {
    if xs == [] then [] else Items(xs[..|xs| - 1]) + [xs[|xs| - 1].1]
  }

  /** The items that thread t transferred. */
  function By(xs: seq<Transfer>, t: Tid): seq<Chunk> {
    if xs == [] then []
    else
      var x, before := xs[|xs| - 1], By(xs[..|xs| - 1], t);
      if x.0 == t then before + [x.1] else before
  }

  lemma TransferMore(xs: seq<Transfer>, x: Transfer, t: Tid)
    ensures Items(xs + [x]) == Items(xs) + [x.1]
    ensures By(xs + [x], t) == if x.0 == t then By(xs, t) + [x.1] else By(xs, t)
  {
    assert (xs + [x])[..|xs|] == xs;
  }

  /** The items that the operations of a thread's log put into queue q, and those it got from it. */
  function PutIn(log: seq<(Request, Response)>, q: nat): seq<Chunk> {
    if log == [] then []
    else
      var o, before := log[|log| - 1], PutIn(log[..|log| - 1], q);
      if o.0.Enqueue? && o.0.q == q then before + [o.0.item] else before
  }

  function Got(log: seq<(Request, Response)>, q: nat): seq<Chunk> {
    if log == [] then []
    else
      var o, before := log[|log| - 1], Got(log[..|log| - 1], q);
      if o.0.Dequeue? && o.0.q == q && o.1.Dequeued? && o.1.item.Some? then before + [o.1.item.value] else before
  }

  lemma OneOperation(o: (Request, Response), q: nat)
    ensures PutIn([o], q) == if o.0.Enqueue? && o.0.q == q then [o.0.item] else []
    ensures Got([o], q) ==
            if o.0.Dequeue? && o.0.q == q && o.1.Dequeued? && o.1.item.Some? then [o.1.item.value] else []
  {
    var log := [o];
    assert log[|log| - 1] == o && log[..|log| - 1] == [];
  }

  /** One operation adds to what was put in, or moves the front of the queue to what was got. */
  lemma FifoStep(first: seq<Chunk>, put: seq<Chunk>, taken: seq<Chunk>, mid: Contents, e: Event, c': Contents, q: nat)
    requires q < |mid| && first + put == taken + mid[q]
    requires (e.1.SizeAll? || e.1.q < |mid|) && Apply(mid, e.1) == (c', e.2)
    ensures |c'| == |mid| && first + (put + PutIn([(e.1, e.2)], q)) == (taken + Got([(e.1, e.2)], q)) + c'[q]
  {
    OneOperation((e.1, e.2), q);
    if e.1.Dequeue? && e.1.q == q && mid[q] != [] {
      assert put + [] == put && taken + mid[q] == (taken + [mid[q][0]]) + mid[q][1..];
    } else if e.1.Enqueue? && e.1.q == q {
      assert taken + [] == taken && first + (put + [e.1.item]) == (first + put) + [e.1.item];
      assert (taken + mid[q]) + [e.1.item] == taken + (mid[q] + [e.1.item]);
    } else {
      assert put + [] == put && taken + [] == taken && c'[q] == mid[q];
    }
  }

  lemma HistoryMore(h: seq<Event>, e: Event, q: nat)
    ensures Items(Puts(h + [e], q)) == Items(Puts(h, q)) + PutIn([(e.1, e.2)], q)
    ensures Items(Takes(h + [e], q)) == Items(Takes(h, q)) + Got([(e.1, e.2)], q)
  {
    assert (h + [e])[..|h|] == h;
    assert [(e.1, e.2)][..0] == [];
    if e.1.Enqueue? { TransferMore(Puts(h, q), (e.0, e.1.item), 0); }
    if e.1.Dequeue? && e.2.Dequeued? && e.2.item.Some? { TransferMore(Takes(h, q), (e.0, e.2.item.value), 0); }
  }

  /** In a legal history each queue is first in, first out. */
  lemma {:induction false} FirstInFirstOut(c: Contents, h: seq<Event>, c': Contents, q: nat)
    requires Legal(c, h, c') && q < |c|
    ensures |c'| == |c| && c[q] + Items(Puts(h, q)) == Items(Takes(h, q)) + c'[q]
    decreases |h|
  {
    if h != [] {
      var e, before := h[|h| - 1], h[..|h| - 1];
      var mid :| Legal(c, before, mid) && (e.1.SizeAll? || e.1.q < |mid|) && Apply(mid, e.1) == (c', e.2);
      FirstInFirstOut(c, before, mid, q);
      FifoStep(c[q], Items(Puts(before, q)), Items(Takes(before, q)), mid, e, c', q);
      HistoryMore(before, e, q);
      assert h == before + [e];
    }
  }

  lemma LogMore(log: seq<(Request, Response)>, o: (Request, Response), q: nat)
    ensures PutIn(log + [o], q) == PutIn(log, q) + PutIn([o], q)
    ensures Got(log + [o], q) == Got(log, q) + Got([o], q)
  {
    assert (log + [o])[..|log|] == log;
    assert [o][..0] == [];
  }

  /** What the history says a thread transferred is what the thread's operations say. */
  lemma {:induction false} TransfersOf(h: seq<Event>, q: nat, t: Tid)
    ensures By(Puts(h, q), t) == PutIn(Of(h, t), q) && By(Takes(h, q), t) == Got(Of(h, t), q)
  {
    if h != [] {
      var e, before := h[|h| - 1], h[..|h| - 1];
      TransfersOf(before, q, t);
      LogMore(Of(before, t), (e.1, e.2), q);
      if e.1.Enqueue? { TransferMore(Puts(before, q), (e.0, e.1.item), t); }
      if e.1.Dequeue? && e.2.Dequeued? && e.2.item.Some? {
        TransferMore(Takes(before, q), (e.0, e.2.item.value), t);
      }
    }
  }

  ghost predicate Within(xs: seq<Transfer>, n: nat) {
    forall i :: 0 <= i < |xs| ==> xs[i].0 < n
  }

  lemma {:induction false} TransfersWithin(h: seq<Event>, q: nat, n: nat)
    requires ByThreads(h, n)
    ensures Within(Puts(h, q), n) && Within(Takes(h, q), n)
  {
    if h != [] { TransfersWithin(h[..|h| - 1], q, n); }
  }

  /** `puts` and `takes` are what the threads' operations on q did, each thread's in its own order. */
  ghost predicate FromLogs(l: Logged, q: nat, puts: seq<Transfer>, takes: seq<Transfer>) {
    && |l.current| == |l.log| == |l.s.threads|
    && Within(puts, |l.log|) && Within(takes, |l.log|)
    && forall t :: 0 <= t < |l.log| ==>
         By(puts, t) == PutIn(InEffect(l, t), q) && By(takes, t) == Got(InEffect(l, t), q)
  }

  /** After any run, the items that threads got from a queue, followed by what it holds, are the
      items that threads put into it, in the order of a history that explains the run. */
  lemma QueuesAreFirstInFirstOut(s: State, l: Logged, acts: seq<Action>, q: nat)
    returns (w: Witness, h: seq<Event>, c: Contents)
    requires Fresh(s) && q < |s.queues|
    requires l == Logged(s, seq(|s.threads|, _ => None), seq(|s.threads|, _ => []))
    requires IsRun(l, acts)
    ensures Explained(After(l, acts), w, seq(|s.queues|, _ => []), h, c) && RealTime(l, acts, h)
    ensures FromLogs(After(l, acts), q, Puts(h, q), Takes(h, q))
    ensures q < |c| && Items(Puts(h, q)) == Items(Takes(h, q)) + c[q]
  {
    w, h, c := RunsAreLinearizable(s, l, acts);
    var c0: Contents := seq(|s.queues|, _ => []);
    FirstInFirstOut(c0, h, c, q);
    assert c0[q] + Items(Puts(h, q)) == Items(Puts(h, q));
    var l' := After(l, acts);
    TransfersWithin(h, q, |l'.log|);
    forall t | 0 <= t < |l'.log|
      ensures By(Puts(h, q), t) == PutIn(InEffect(l', t), q) && By(Takes(h, q), t) == Got(InEffect(l', t), q)
    {
      assert Matches(l', h, t);
      TransfersOf(h, q, t);
    }
  }

  // ------------------------------------------------- nothing lost, nothing made up

  /** Everything that the first n threads put into queue q, and everything they got from it. */
  function AllPut(logs: seq<seq<(Request, Response)>>, q: nat): multiset<Chunk> {
    if logs == [] then multiset{} else AllPut(logs[..|logs| - 1], q) + multiset(PutIn(logs[|logs| - 1], q))
  }

  function AllGot(logs: seq<seq<(Request, Response)>>, q: nat): multiset<Chunk> {
    if logs == [] then multiset{} else AllGot(logs[..|logs| - 1], q) + multiset(Got(logs[|logs| - 1], q))
  }

  /** The items that the first n threads transferred. */
  ghost function ByAll(xs: seq<Transfer>, n: nat): multiset<Chunk> {
    if n == 0 then multiset{} else ByAll(xs, n - 1) + multiset(By(xs, n - 1))
  }

  lemma {:induction false} ByAllMore(xs: seq<Transfer>, x: Transfer, n: nat)
    ensures ByAll(xs + [x], n) == ByAll(xs, n) + (if x.0 < n then multiset{x.1} else multiset{})
  {
    if n > 0 {
      ByAllMore(xs, x, n - 1);
      TransferMore(xs, x, n - 1);
    }
  }

  lemma {:induction false} NothingBy(n: nat)
    ensures ByAll([], n) == multiset{}
  {
    if n > 0 { NothingBy(n - 1); }
  }

  /** The threads' shares make up all items. */
  lemma {:induction false} ItemsByAll(xs: seq<Transfer>, n: nat)
    requires Within(xs, n)
    ensures multiset(Items(xs)) == ByAll(xs, n)
  {
    if xs == [] {
      NothingBy(n);
    } else {
      var x, before := xs[|xs| - 1], xs[..|xs| - 1];
      ItemsByAll(before, n);
      ByAllMore(before, x, n);
      TransferMore(before, x, 0);
      assert xs == before + [x];
    }
  }

  lemma {:induction false} SharesAdd(l: Logged, q: nat, puts: seq<Transfer>, takes: seq<Transfer>, n: nat)
    requires FromLogs(l, q, puts, takes) && n <= |l.log|
    requires forall t :: 0 <= t < |l.log| ==> InEffect(l, t) == l.log[t]
    ensures ByAll(puts, n) == AllPut(l.log[..n], q) && ByAll(takes, n) == AllGot(l.log[..n], q)
  {
    if n > 0 {
      SharesAdd(l, q, puts, takes, n - 1);
      assert l.log[..n][..n - 1] == l.log[..n - 1] && InEffect(l, n - 1) == l.log[n - 1];
    }
  }

  lemma JoinedItems(all: seq<Chunk>, some: seq<Chunk>, others: seq<Chunk>)
    requires all == some + others
    ensures multiset(all) == multiset(some) + multiset(others)
  {}

  lemma SumsAgree(l: Logged, q: nat, puts: seq<Transfer>, takes: seq<Transfer>, left: seq<Chunk>)
    requires FromLogs(l, q, puts, takes) && Items(puts) == Items(takes) + left
    requires forall t :: 0 <= t < |l.log| ==> InEffect(l, t) == l.log[t]
    ensures AllPut(l.log, q) == AllGot(l.log, q) + multiset(left)
  {
    ItemsByAll(puts, |l.log|);
    ItemsByAll(takes, |l.log|);
    SharesAdd(l, q, puts, takes, |l.log|);
    assert l.log[..|l.log|] == l.log;
    JoinedItems(Items(puts), Items(takes), left);
  }

  /** When no operation is under way, the threads' answers and the contents of a queue together
      are the items that the threads put into it, each as often as it was put. */
  lemma NothingLostOrInvented(s: State, l: Logged, acts: seq<Action>, q: nat) returns (w: Witness, c: Contents)
    requires Fresh(s) && q < |s.queues|
    requires l == Logged(s, seq(|s.threads|, _ => None), seq(|s.threads|, _ => []))
    requires IsRun(l, acts) && forall t :: 0 <= t < |After(l, acts).s.threads| ==> After(l, acts).s.threads[t].Idle?
    ensures Inv(After(l, acts).s, w, c) && q < |c|
    ensures AllPut(After(l, acts).log, q) == AllGot(After(l, acts).log, q) + multiset(c[q])
  {
    var h;
    w, h, c := QueuesAreFirstInFirstOut(s, l, acts, q);
    var l' := After(l, acts);
    forall t | 0 <= t < |l'.log| ensures InEffect(l', t) == l'.log[t] { assert l'.s.threads[t].Idle?; }
    SumsAgree(l', q, Puts(h, q), Takes(h, q), c[q]);
  }
}
