/** The client protocol cannot get stuck, and no thread can be left behind for good: from
    every state it can reach, some schedule lets every thread finish. */
module SortProgress {
  import opened SortedSeqs
  import opened Chunks
  import opened WorkQueue
  import opened SortProtocol

  // ------------------------------------------------------------------ schedules

  ghost predicate Sized(cfg: Config, p: Proto) {
    ConfigOk(cfg) && |p.clients| == |cfg.node| && |p.queues| == |cfg.nextQ|
  }

  lemma SizedCanStep(cfg: Config, p: Proto, t: Tid)
    requires Sized(cfg, p) && t < |cfg.node|
    ensures CanStep(cfg, p, t) && Sized(cfg, ClientStep(cfg, p, t))
  {
    var cl := p.clients[t];
    if (cl.Scan1? || cl.Scan2?) && cl.pos < |Order(cfg, t)| { OrderInRange(cfg, t, cl.pos); }
  }

  ghost predicate IsSchedule(cfg: Config, sched: seq<Tid>) { forall k :: 0 <= k < |sched| ==> sched[k] < |cfg.node| }

  /** The state after the threads of `sched` have each made a step, in that order. */
  ghost function RunOf(cfg: Config, p: Proto, sched: seq<Tid>): (p': Proto)
    requires Sized(cfg, p) && IsSchedule(cfg, sched)
    ensures Sized(cfg, p')
    decreases |sched|
  {
    if sched == [] then p
    else
      SizedCanStep(cfg, p, sched[0]);
      RunOf(cfg, ClientStep(cfg, p, sched[0]), sched[1..])
  }

  ghost predicate Reaches(cfg: Config, p: Proto, p': Proto) {
    Sized(cfg, p) && exists sched :: IsSchedule(cfg, sched) && RunOf(cfg, p, sched) == p'
  }

  lemma ReachesItself(cfg: Config, p: Proto)
    requires Sized(cfg, p)
    ensures Reaches(cfg, p, p)
  {
    assert RunOf(cfg, p, []) == p;
  }

  lemma {:induction false} RunOfSnoc(cfg: Config, p: Proto, sched: seq<Tid>, t: Tid)
    requires Sized(cfg, p) && IsSchedule(cfg, sched) && t < |cfg.node|
    ensures CanStep(cfg, RunOf(cfg, p, sched), t)
    ensures IsSchedule(cfg, sched + [t])
    ensures RunOf(cfg, p, sched + [t]) == ClientStep(cfg, RunOf(cfg, p, sched), t)
    decreases |sched|
  {
    SizedCanStep(cfg, RunOf(cfg, p, sched), t);
    if sched == [] {
      assert [] + [t] == [t] && [t][1..] == [];
    } else {
      SizedCanStep(cfg, p, sched[0]);
      RunOfSnoc(cfg, ClientStep(cfg, p, sched[0]), sched[1..], t);
      assert (sched + [t])[1..] == sched[1..] + [t];
    }
  }

  /** One step more. */
  lemma ReachesOn(cfg: Config, p: Proto, p': Proto, t: Tid)
    requires Reaches(cfg, p, p') && t < |cfg.node|
    ensures CanStep(cfg, p', t) && Reaches(cfg, p, ClientStep(cfg, p', t))
  {
    var sched :| IsSchedule(cfg, sched) && RunOf(cfg, p, sched) == p';
    RunOfSnoc(cfg, p, sched, t);
  }

  // ------------------------------------------------------------------ good states

  function EnterCount(clients: seq<Client>): (n: nat)
    ensures n <= |clients|
  {
    if clients == [] then 0
    else EnterCount(clients[..|clients| - 1]) + if clients[|clients| - 1].Enter? then 1 else 0
  }

  lemma {:induction false} EnterUpdate(clients: seq<Client>, t: Tid, cl: Client)
    requires t < |clients|
    ensures EnterCount(clients[t := cl]) + (if clients[t].Enter? then 1 else 0)
         == EnterCount(clients) + (if cl.Enter? then 1 else 0)
  {
    var n := |clients| - 1;
    if t < n {
      EnterUpdate(clients[..n], t, cl);
      assert clients[t := cl][..n] == clients[..n][t := cl];
    } else {
      assert clients[t := cl][..n] == clients[..n];
    }
  }

  lemma {:induction false} EnterNone(clients: seq<Client>)
    requires forall t :: 0 <= t < |clients| ==> !clients[t].Enter?
    ensures EnterCount(clients) == 0
  {
    if clients != [] { EnterNone(clients[..|clients| - 1]); }
  }

  lemma {:induction false} EnterAll(clients: seq<Client>)
    requires forall t :: 0 <= t < |clients| ==> clients[t].Enter?
    ensures EnterCount(clients) == |clients|
  {
    if clients != [] { EnterAll(clients[..|clients| - 1]); }
  }

  /** The counter of threads that have entered. */
  ghost predicate EnteredOk(p: Proto) { p.entered + EnterCount(p.clients) == |p.clients| }

  ghost predicate Good(cfg: Config, p: Proto, keys: multiset<int>) {
    EnteredOk(p) && exists tags :: ProtoInv(cfg, p, tags, keys)
  }

  lemma StepCounts(cfg: Config, p: Proto, t: Tid)
    requires CanStep(cfg, p, t) && EnteredOk(p)
    ensures EnteredOk(ClientStep(cfg, p, t))
  {
    EnterUpdate(p.clients, t, ClientStep(cfg, p, t).clients[t]);
  }

  lemma GoodStep(cfg: Config, p: Proto, keys: multiset<int>, t: Tid)
    requires Good(cfg, p, keys) && t < |cfg.node|
    ensures Sized(cfg, p) && CanStep(cfg, p, t) && Good(cfg, ClientStep(cfg, p, t), keys)
  {
    var tags :| ProtoInv(cfg, p, tags, keys);
    var tags' := StepKeeps(cfg, p, tags, keys, t);
    StepCounts(cfg, p, t);
  }

  lemma GoodClient(cfg: Config, p: Proto, keys: multiset<int>, t: Tid)
    requires Good(cfg, p, keys) && t < |cfg.node|
    ensures Sized(cfg, p) && ClientOk(cfg, t, p.clients[t])
  {
    var tags :| ProtoInv(cfg, p, tags, keys);
  }

  ghost predicate GoodFrom(cfg: Config, p0: Proto, p: Proto, keys: multiset<int>) {
    Reaches(cfg, p0, p) && Good(cfg, p, keys) && Sized(cfg, p)
  }

  /** One step of thread t from a good state on the way. */
  lemma GoOn(cfg: Config, p0: Proto, p: Proto, keys: multiset<int>, t: Tid)
    requires GoodFrom(cfg, p0, p, keys) && t < |cfg.node|
    ensures CanStep(cfg, p, t) && GoodFrom(cfg, p0, ClientStep(cfg, p, t), keys)
  {
    GoodStep(cfg, p, keys, t);
    ReachesOn(cfg, p0, p, t);
    SizedCanStep(cfg, p, t);
  }

  ghost predicate OnlyMoved(p: Proto, p': Proto, t: Tid) {
    |p.clients| == |p'.clients| && forall u :: 0 <= u < |p.clients| && u != t ==> p'.clients[u] == p.clients[u]
  }

  // ------------------------------------------------------------------ whole scans

  lemma SeenWhileScanning(cfg: Config, p: Proto, t: Tid, q: nat)
    requires Sized(cfg, p) && t < |cfg.node| && q < |cfg.nextQ| && CanStep(cfg, p, t) && ClientOk(cfg, t, p.clients[t])
    requires (p.clients[t].Scan1? || p.clients[t].Scan2?) && Order(cfg, t)[p.clients[t].pos] < |p.queues|
    requires !Seen(cfg, t, p.clients[t], q) && Seen(cfg, t, ClientStep(cfg, p, t).clients[t], q)
    ensures p.queues[q] == []
  {
    if p.queues[Order(cfg, t)[p.clients[t].pos]] == [] { SeenAfterMiss(cfg, t, p.clients[t], q); }
  }

  lemma SeenElsewhere(cfg: Config, p: Proto, t: Tid, q: nat)
    requires Sized(cfg, p) && t < |cfg.node| && q < |cfg.nextQ| && CanStep(cfg, p, t)
    requires !p.clients[t].Scan1? && !p.clients[t].Scan2? && !Seen(cfg, t, p.clients[t], q)
    ensures !Seen(cfg, t, ClientStep(cfg, p, t).clients[t], q)
  {}

  /** A queue becomes seen by a thread only when the thread's dequeue finds it empty. */
  lemma SeenStep(cfg: Config, p: Proto, keys: multiset<int>, u: Tid, t: Tid, q: nat)
    requires Good(cfg, p, keys) && u < |cfg.node| && t < |cfg.node| && q < |cfg.nextQ| && CanStep(cfg, p, u)
    requires Sized(cfg, ClientStep(cfg, p, u))
    requires !Seen(cfg, t, p.clients[t], q) && Seen(cfg, t, ClientStep(cfg, p, u).clients[t], q)
    ensures Sized(cfg, p) && u == t && p.queues[q] == []
  {
    GoodClient(cfg, p, keys, t);
    StepMovesOne(cfg, p, u);
    var cl := p.clients[t];
    if cl.Scan1? || cl.Scan2? {
      OrderInRange(cfg, t, cl.pos);
      SeenWhileScanning(cfg, p, t, q);
    } else {
      SeenElsewhere(cfg, p, t, q);
    }
  }

  /** While other threads come and go, a scan that ends without an item has found each queue
      empty at the instant it tried it: an item that stays in its queue is not missed. */
  lemma {:induction false} MissedOnlyWhenEmpty(cfg: Config, p: Proto, keys: multiset<int>, sched: seq<Tid>, t: Tid,
                                               q: nat)
    returns (k: nat)
    requires Good(cfg, p, keys) && Sized(cfg, p) && IsSchedule(cfg, sched) && t < |cfg.node| && q < |cfg.nextQ|
    requires !Seen(cfg, t, p.clients[t], q) && Seen(cfg, t, RunOf(cfg, p, sched).clients[t], q)
    ensures k < |sched| && sched[k] == t && IsSchedule(cfg, sched[..k]) && RunOf(cfg, p, sched[..k]).queues[q] == []
    decreases |sched|
  {
    GoodStep(cfg, p, keys, sched[0]);
    SizedCanStep(cfg, p, sched[0]);
    var p1 := ClientStep(cfg, p, sched[0]);
    if Seen(cfg, t, p1.clients[t], q) {
      SeenStep(cfg, p, keys, sched[0], t, q);
      k := 0;
    } else {
      var j := MissedOnlyWhenEmpty(cfg, p1, keys, sched[1..], t, q);
      k := j + 1;
      assert sched[..k][1..] == sched[1..][..j] && sched[..k][0] == sched[0];
    }
  }

  // ------------------------------------------------------------- the order of a scan

  /** At step k thread t finds queue q empty. */
  ghost predicate FindsEmpty(cfg: Config, p: Proto, sched: seq<Tid>, t: Tid, k: nat, q: nat)
    requires Sized(cfg, p)
  {
    && k < |sched| && sched[k] == t && IsSchedule(cfg, sched[..k]) && q < |cfg.nextQ|
    && RunOf(cfg, p, sched[..k]).queues[q] == []
  }

  /** The steps ks are all of thread t's from the first of them on. */
  ghost predicate StepsOf(sched: seq<Tid>, t: Tid, ks: seq<nat>) {
    && (forall j :: 0 <= j < |ks| ==> ks[j] < |sched| && sched[ks[j]] == t)
    && (forall i, j :: 0 <= i < j < |ks| ==> ks[i] < ks[j])
    && (forall k: nat :: k < |sched| && sched[k] == t && ks != [] && ks[0] <= k ==> k in ks)
  }

  /** At these steps it has found its own queue empty and then the first queues of its stealing order,
      one after the other. */
  ghost predicate MissedInTurn(cfg: Config, p: Proto, sched: seq<Tid>, t: Tid, ks: seq<nat>)
    requires Sized(cfg, p) && t < |cfg.node|
  {
    && |ks| <= 1 + |cfg.nextQ[cfg.node[t]]| && StepsOf(sched, t, ks)
    && (ks != [] ==> FindsEmpty(cfg, p, sched, t, ks[0], cfg.node[t]))
    && (forall j :: 0 < j < |ks| ==> FindsEmpty(cfg, p, sched, t, ks[j], cfg.nextQ[cfg.node[t]][j - 1]))
  }

  lemma FindsEmptyLater(cfg: Config, p: Proto, sched: seq<Tid>, u: Tid, t: Tid, k: nat, q: nat)
    requires Sized(cfg, p) && FindsEmpty(cfg, p, sched, t, k, q)
    ensures FindsEmpty(cfg, p, sched + [u], t, k, q)
  {
    assert (sched + [u])[..k] == sched[..k];
  }

  lemma StepsOfMore(sched: seq<Tid>, u: Tid, t: Tid, ks: seq<nat>)
    requires StepsOf(sched, t, ks)
    ensures u != t ==> StepsOf(sched + [u], t, ks)
    ensures u == t ==> StepsOf(sched + [u], t, ks + [|sched|])
  {
    var more, ks' := sched + [u], ks + [|sched|];
    forall k: nat | k < |more| && more[k] == t && ks != [] && ks[0] <= k && (u == t || k < |sched|) ensures k in ks' {
      if k < |sched| { assert sched[k] == t && k in ks; } else { assert ks'[|ks|] == k; }
    }
    if ks == [] {
      forall k: nat | k < |more| && more[k] == t && |sched| <= k ensures k in ks' { assert ks'[0] == k; }
    }
  }

  /** Another thread's step leaves the misses as they are. */
  lemma MissedStill(cfg: Config, p: Proto, sched: seq<Tid>, u: Tid, t: Tid, ks: seq<nat>)
    requires Sized(cfg, p) && t < |cfg.node| && MissedInTurn(cfg, p, sched, t, ks) && u != t
    ensures MissedInTurn(cfg, p, sched + [u], t, ks)
  {
    StepsOfMore(sched, u, t, ks);
    forall j | 0 < j < |ks| ensures FindsEmpty(cfg, p, sched + [u], t, ks[j], cfg.nextQ[cfg.node[t]][j - 1]) {
      FindsEmptyLater(cfg, p, sched, u, t, ks[j], cfg.nextQ[cfg.node[t]][j - 1]);
    }
    if ks != [] { FindsEmptyLater(cfg, p, sched, u, t, ks[0], cfg.node[t]); }
  }

  /** One more miss. */
  lemma MissedMore(cfg: Config, p: Proto, sched: seq<Tid>, t: Tid, ks: seq<nat>, q: nat)
    requires Sized(cfg, p) && t < |cfg.node| && MissedInTurn(cfg, p, sched, t, ks)
    requires |ks| <= |cfg.nextQ[cfg.node[t]]| && q == QueueAfter(cfg, t, |ks|)
    requires FindsEmpty(cfg, p, sched + [t], t, |sched|, q)
    ensures MissedInTurn(cfg, p, sched + [t], t, ks + [|sched|])
  {
    var ks' := ks + [|sched|];
    StepsOfMore(sched, t, t, ks);
    forall j | 0 < j < |ks'| ensures FindsEmpty(cfg, p, sched + [t], t, ks'[j], cfg.nextQ[cfg.node[t]][j - 1]) {
      if j < |ks| { FindsEmptyLater(cfg, p, sched, t, t, ks[j], cfg.nextQ[cfg.node[t]][j - 1]); }
    }
    if ks != [] { FindsEmptyLater(cfg, p, sched, t, t, ks[0], cfg.node[t]); }
  }

  ghost predicate Scanning(cl: Client) { cl.Scan1? || cl.Scan2? }

  /** The queue a scan tries after n misses. */
  function QueueAfter(cfg: Config, t: Tid, n: nat): nat
    requires t < |cfg.node| && cfg.node[t] < |cfg.nextQ| && n <= |cfg.nextQ[cfg.node[t]]|
  {
    if n == 0 then cfg.node[t] else cfg.nextQ[cfg.node[t]][n - 1]
  }

  lemma ScanStep(cfg: Config, p: Proto, t: Tid)
    requires Sized(cfg, p) && t < |cfg.node| && Scanning(p.clients[t])
    requires p.clients[t].pos <= |cfg.nextQ[cfg.node[t]]|
    ensures CanStep(cfg, p, t)
    ensures var q, p', n := QueueAfter(cfg, t, p.clients[t].pos), ClientStep(cfg, p, t), p.clients[t].pos;
            && q < |p.queues|
            && if p.queues[q] != []
               then p' == p.(queues := p.queues[q := p.queues[q][1..]],
                             clients := p.clients[t := WithItem(p.clients[t], p.queues[q][0])])
               else p'.queues == p.queues && !p'.clients[t].Have? && !p'.clients[t].Both?
                    && (Scanning(p'.clients[t]) ==> p'.clients[t].pos == n + 1 <= |cfg.nextQ[cfg.node[t]]|)
  {
    if p.clients[t].pos == 0 { OwnQueueFirst(cfg, p, t); } else { ThenTheOthers(cfg, p, t, p.clients[t].pos - 1); }
  }

  lemma RestStep(cfg: Config, p: Proto, t: Tid)
    requires Sized(cfg, p) && t < |cfg.node| && CanStep(cfg, p, t) && !Scanning(p.clients[t])
    ensures !ClientStep(cfg, p, t).clients[t].Have? && !ClientStep(cfg, p, t).clients[t].Both?
    ensures Scanning(ClientStep(cfg, p, t).clients[t]) ==> ClientStep(cfg, p, t).clients[t].pos == 0
  {}

  lemma NoMisses(cfg: Config, p: Proto, sched: seq<Tid>, t: Tid)
    requires Sized(cfg, p) && t < |cfg.node|
    ensures MissedInTurn(cfg, p, sched, t, [])
  {}

  /** A scan under way has missed as many queues as it is on. */
  lemma {:induction false} ScanHistory(cfg: Config, p: Proto, sched: seq<Tid>, t: Tid) returns (ks: seq<nat>)
    requires Sized(cfg, p) && IsSchedule(cfg, sched) && t < |cfg.node| && !Scanning(p.clients[t])
    ensures MissedInTurn(cfg, p, sched, t, ks)
    ensures var cl := RunOf(cfg, p, sched).clients[t];
            Scanning(cl) ==> |ks| == cl.pos <= |cfg.nextQ[cfg.node[t]]|
    decreases |sched|
  {
    ks := [];
    NoMisses(cfg, p, sched, t);
    if sched != [] {
      var n := |sched| - 1;
      var init, u := sched[..n], sched[n];
      assert sched == init + [u];
      RunOfSnoc(cfg, p, init, u);
      var ks1 := ScanHistory(cfg, p, init, t);
      var before := RunOf(cfg, p, init);
      if u != t {
        MissedStill(cfg, p, init, u, t, ks1);
        StepMovesOne(cfg, before, u);
        ks := ks1;
      } else if Scanning(before.clients[t]) {
        ScanStep(cfg, before, t);
        var q := QueueAfter(cfg, t, |ks1|);
        if before.queues[q] == [] {
          MissedMore(cfg, p, init, t, ks1, q);
          ks := ks1 + [n];
        }
      } else {
        RestStep(cfg, before, t);
      }
    }
  }

  /** A thread that gets an item has, in this scan, found its own queue empty before it takes anything
      from another one, and then the queues of its stealing order in their order, up to the one whose
      head it takes; each was empty at the instant it was tried. */
  lemma TakesInOrder(cfg: Config, p: Proto, sched: seq<Tid>, t: Tid) returns (ks: seq<nat>)
    requires Sized(cfg, p) && IsSchedule(cfg, sched) && t < |cfg.node| && !Scanning(p.clients[t])
    requires CanStep(cfg, RunOf(cfg, p, sched), t)
    requires var before := RunOf(cfg, p, sched);
             var after := ClientStep(cfg, before, t);
             after != before && (after.clients[t].Have? || after.clients[t].Both?)
    ensures MissedInTurn(cfg, p, sched, t, ks) && |ks| <= |cfg.nextQ[cfg.node[t]]|
    ensures var before := RunOf(cfg, p, sched);
            var q := if ks == [] then cfg.node[t] else cfg.nextQ[cfg.node[t]][|ks| - 1];
            && q < |before.queues| && before.queues[q] != []
            && ClientStep(cfg, before, t).queues == before.queues[q := before.queues[q][1..]]
            && ClientStep(cfg, before, t).clients[t] == WithItem(before.clients[t], before.queues[q][0])
  {
    var before := RunOf(cfg, p, sched);
    ks := ScanHistory(cfg, p, sched, t);
    if Scanning(before.clients[t]) { ScanStep(cfg, before, t); } else { RestStep(cfg, before, t); }
  }

  // ------------------------------------------------------------- empty-handed threads

  /** How far a thread is from having empty hands, if it moves alone. */
  function Rank(cfg: Config, t: Tid, cl: Client): nat
    requires t < |cfg.node| && cfg.node[t] < |cfg.nextQ|
  {
    var n := |Order(cfg, t)|;
    match cl
    case Have(_) => n + 5
    case Scan2(_, pos) => if pos < n then n - pos + 4 else 4
    case Check1(_) => 3
    case Check2(_) => 2
    case Both(_, _) => 2
    case Put(_) => 1
    case Enter => 1
    case _ => 0
  }

  lemma RankFallsScanning(cfg: Config, p: Proto, t: Tid)
    requires Sized(cfg, p) && t < |cfg.node| && CanStep(cfg, p, t) && ClientOk(cfg, t, p.clients[t])
             && p.clients[t].Scan2?
    ensures Rank(cfg, t, ClientStep(cfg, p, t).clients[t]) < Rank(cfg, t, p.clients[t])
  {}

  lemma RankFallsElse(cfg: Config, p: Proto, t: Tid)
    requires Sized(cfg, p) && t < |cfg.node| && CanStep(cfg, p, t)
    requires Rank(cfg, t, p.clients[t]) > 0 && !p.clients[t].Scan2?
    ensures Rank(cfg, t, ClientStep(cfg, p, t).clients[t]) < Rank(cfg, t, p.clients[t])
  {}

  lemma StepMovesOne(cfg: Config, p: Proto, t: Tid)
    requires Sized(cfg, p) && t < |cfg.node| && CanStep(cfg, p, t)
    ensures OnlyMoved(p, ClientStep(cfg, p, t), t)
  {}

  lemma RankFalls(cfg: Config, p: Proto, keys: multiset<int>, t: Tid)
    requires Good(cfg, p, keys) && t < |cfg.node| && CanStep(cfg, p, t) && Rank(cfg, t, p.clients[t]) > 0
    ensures Rank(cfg, t, ClientStep(cfg, p, t).clients[t]) < Rank(cfg, t, p.clients[t])
    ensures OnlyMoved(p, ClientStep(cfg, p, t), t)
  {
    GoodClient(cfg, p, keys, t);
    StepMovesOne(cfg, p, t);
    if p.clients[t].Scan2? { RankFallsScanning(cfg, p, t); } else { RankFallsElse(cfg, p, t); }
  }

  /** A thread moving alone puts down what it holds. */
  lemma {:induction false} Settle(cfg: Config, p0: Proto, p: Proto, keys: multiset<int>, t: Tid) returns (p': Proto)
    requires GoodFrom(cfg, p0, p, keys) && t < |cfg.node|
    ensures GoodFrom(cfg, p0, p', keys) && OnlyMoved(p, p', t) && Rank(cfg, t, p'.clients[t]) == 0
    decreases Rank(cfg, t, p.clients[t])
  {
    if Rank(cfg, t, p.clients[t]) == 0 {
      p' := p;
    } else {
      GoOn(cfg, p0, p, keys, t);
      RankFalls(cfg, p, keys, t);
      p' := Settle(cfg, p0, ClientStep(cfg, p, t), keys, t);
    }
  }

  /** The first n threads have empty hands. */
  ghost predicate Settled(cfg: Config, p: Proto, n: nat) {
    Sized(cfg, p) && n <= |p.clients| && forall u :: 0 <= u < n ==> Rank(cfg, u, p.clients[u]) == 0
  }

  lemma {:induction false} SettleAll(cfg: Config, p: Proto, keys: multiset<int>, n: nat) returns (p': Proto)
    requires Good(cfg, p, keys) && Sized(cfg, p) && n <= |cfg.node|
    ensures GoodFrom(cfg, p, p', keys) && Settled(cfg, p', n)
  {
    if n == 0 {
      p' := p;
      ReachesItself(cfg, p);
    } else {
      var p1 := SettleAll(cfg, p, keys, n - 1);
      p' := Settle(cfg, p, p1, keys, n - 1);
    }
  }

  // ------------------------------------------------------------ one thread collects

  function Weight(s: seq<Chunk>): nat {
    if s == [] then 0 else Weight(s[..|s| - 1]) + if s[|s| - 1].sorted then 1 else 2
  }

  function QueueWeight(c: Contents): nat {
    if c == [] then 0 else QueueWeight(c[..|c| - 1]) + Weight(c[|c| - 1])
  }

  lemma WeightPush(s: seq<Chunk>, w: Chunk)
    ensures Weight(s + [w]) == Weight(s) + if w.sorted then 1 else 2
  {
    assert (s + [w])[..|s|] == s;
  }

  lemma {:induction false} WeightPop(s: seq<Chunk>)
    requires s != []
    ensures Weight(s) == Weight(s[1..]) + if s[0].sorted then 1 else 2
  {
    var n := |s| - 1;
    if n > 0 {
      var init := s[..n];
      WeightPop(init);
      assert s[1..] == init[1..] + [s[n]];
      WeightPush(init[1..], s[n]);
    } else {
      assert s[..n] == [] && s[1..] == [];
    }
  }

  lemma {:induction false} QueueWeightUpdate(c: Contents, q: nat, s: seq<Chunk>)
    requires q < |c|
    ensures QueueWeight(c[q := s]) + Weight(c[q]) == QueueWeight(c) + Weight(s)
  {
    var n := |c| - 1;
    if q < n {
      QueueWeightUpdate(c[..n], q, s);
      assert c[q := s][..n] == c[..n][q := s];
    } else {
      assert c[q := s][..n] == c[..n];
    }
  }

  /** Work left for a thread that moves alone: sorting a chunk and merging two both reduce it. */
  ghost function Work(p: Proto, t: Tid): nat
    requires t < |p.clients|
  {
    QueueWeight(p.queues) + Weight(Held(p.clients[t]))
  }

  /** Queue q holds something and the scan of thread t has still to come to it. */
  ghost predicate Ahead(cfg: Config, p: Proto, t: Tid, q: nat) {
    && Sized(cfg, p) && t < |cfg.node| && q < |p.queues| && p.queues[q] != []
    && p.clients[t].Scan1? && p.clients[t].pos < |Order(cfg, t)| && q !in Order(cfg, t)[..p.clients[t].pos]
  }

  lemma InOrder(cfg: Config, t: Tid, q: nat)
    requires ConfigOk(cfg) && t < |cfg.node| && q < |cfg.nextQ|
    ensures q in Order(cfg, t)
  {
    assert q in cfg.nextQ[cfg.node[t]];
  }

  lemma MissMovesOn(cfg: Config, p: Proto, t: Tid, q: nat)
    requires Ahead(cfg, p, t, q) && CanStep(cfg, p, t) && p.queues[Order(cfg, t)[p.clients[t].pos]] == []
    ensures var p' := ClientStep(cfg, p, t);
            && Ahead(cfg, p', t, q) && p'.queues == p.queues && OnlyMoved(p, p', t)
            && p'.clients[t].pos == p.clients[t].pos + 1
  {
    var ord, pos := Order(cfg, t), p.clients[t].pos;
    InOrder(cfg, t, q);
    assert ord[..pos + 1] == ord[..pos] + [ord[pos]] && ord[..|ord|] == ord;
  }

  lemma TakesChunk(cfg: Config, p: Proto, t: Tid)
    requires Sized(cfg, p) && t < |cfg.node| && CanStep(cfg, p, t) && p.clients[t].Scan1?
    requires p.clients[t].pos < |Order(cfg, t)| && p.queues[Order(cfg, t)[p.clients[t].pos]] != []
    ensures var p' := ClientStep(cfg, p, t); p'.clients[t].Have? && Work(p', t) == Work(p, t) && OnlyMoved(p, p', t)
  {
    var q := Order(cfg, t)[p.clients[t].pos];
    var p', x := ClientStep(cfg, p, t), p.queues[q][0];
    QueueWeightUpdate(p.queues, q, p.queues[q][1..]);
    WeightPop(p.queues[q]);
    WeightPush([], x);
    assert [] + [x] == [x] && Held(p'.clients[t]) == [x] && Held(p.clients[t]) == [];
  }

  /** A scan by a thread alone finds a chunk that is ahead of it. */
  lemma {:induction false} ScanFinds(cfg: Config, p0: Proto, p: Proto, keys: multiset<int>, t: Tid, q: nat)
    returns (p': Proto)
    requires GoodFrom(cfg, p0, p, keys) && Ahead(cfg, p, t, q)
    ensures GoodFrom(cfg, p0, p', keys) && OnlyMoved(p, p', t) && p'.clients[t].Have? && Work(p', t) == Work(p, t)
    decreases |Order(cfg, t)| - p.clients[t].pos
  {
    GoOn(cfg, p0, p, keys, t);
    if p.queues[Order(cfg, t)[p.clients[t].pos]] == [] {
      MissMovesOn(cfg, p, t, q);
      p' := ScanFinds(cfg, p0, ClientStep(cfg, p, t), keys, t, q);
    } else {
      TakesChunk(cfg, p, t);
      p' := ClientStep(cfg, p, t);
    }
  }

  ghost predicate AllEmpty(c: Contents) { forall q :: 0 <= q < |c| ==> c[q] == [] }

  /** The second scan of thread t has found every queue it has passed empty. */
  ghost predicate PassedEmpty(cfg: Config, p: Proto, t: Tid) {
    && Sized(cfg, p) && t < |cfg.node| && p.clients[t].Scan2? && p.clients[t].pos < |Order(cfg, t)|
    && p.clients[t].w.sorted
    && forall q :: 0 <= q < |p.queues| && q in Order(cfg, t)[..p.clients[t].pos] ==> p.queues[q] == []
  }

  ghost predicate Collected(p: Proto, t: Tid) {
    t < |p.clients| && p.clients[t].Check1? && AllEmpty(p.queues)
  }

  lemma PassedOne(cfg: Config, p: Proto, t: Tid, pos: nat, q: nat)
    requires PassedEmpty(cfg, p, t) && pos == p.clients[t].pos
    requires Order(cfg, t)[pos] < |p.queues| && p.queues[Order(cfg, t)[pos]] == []
    requires q < |p.queues| && q in Order(cfg, t)[..pos + 1]
    ensures p.queues[q] == []
  {
    assert Order(cfg, t)[..pos + 1] == Order(cfg, t)[..pos] + [Order(cfg, t)[pos]];
  }

  lemma SecondMiss(cfg: Config, p: Proto, t: Tid)
    requires PassedEmpty(cfg, p, t) && CanStep(cfg, p, t) && p.queues[Order(cfg, t)[p.clients[t].pos]] == []
    ensures var p' := ClientStep(cfg, p, t);
            && OnlyMoved(p, p', t) && Work(p', t) == Work(p, t)
            && (Collected(p', t) || (PassedEmpty(cfg, p', t) && p'.clients[t].pos == p.clients[t].pos + 1))
  {
    var n, pos := |Order(cfg, t)|, p.clients[t].pos;
    assert Order(cfg, t)[..n] == Order(cfg, t);
    forall q | 0 <= q < |p.queues| && q in Order(cfg, t)[..pos + 1] ensures p.queues[q] == []
    { PassedOne(cfg, p, t, pos, q); }
    if pos + 1 == n {
      forall q | 0 <= q < |p.queues| ensures p.queues[q] == [] { InOrder(cfg, t, q); }
    }
  }

  /** Taking a second chunk and merging the two leaves less work. */
  lemma SecondHit(cfg: Config, p: Proto, t: Tid)
    requires PassedEmpty(cfg, p, t) && CanStep(cfg, p, t) && p.queues[Order(cfg, t)[p.clients[t].pos]] != []
    ensures var p' := ClientStep(cfg, p, t);
            && OnlyMoved(p, p', t) && p'.clients[t].Both? && QueueWeight(p'.queues) + 1 < Work(p, t)
  {
    var q := Order(cfg, t)[p.clients[t].pos];
    QueueWeightUpdate(p.queues, q, p.queues[q][1..]);
    WeightPop(p.queues[q]);
    WeightPush([], p.clients[t].w);
    assert [] + [p.clients[t].w] == [p.clients[t].w] == Held(p.clients[t]);
  }

  /** A thread alone that is about to put a sorted chunk back. */
  ghost predicate Returns(p: Proto, t: Tid, bound: nat) {
    t < |p.clients| && p.clients[t].Put? && p.clients[t].w.sorted && QueueWeight(p.queues) + 1 < bound
  }

  /** From its second scan a thread alone collects everything or returns a merged chunk. */
  lemma {:induction false} SecondScan(cfg: Config, p0: Proto, p: Proto, keys: multiset<int>, t: Tid) returns (p': Proto)
    requires GoodFrom(cfg, p0, p, keys) && PassedEmpty(cfg, p, t)
    ensures GoodFrom(cfg, p0, p', keys) && OnlyMoved(p, p', t)
    ensures Collected(p', t) || Returns(p', t, Work(p, t))
    decreases |Order(cfg, t)| - p.clients[t].pos
  {
    GoOn(cfg, p0, p, keys, t);
    var p1 := ClientStep(cfg, p, t);
    if p.queues[Order(cfg, t)[p.clients[t].pos]] == [] {
      SecondMiss(cfg, p, t);
      if Collected(p1, t) { p' := p1; } else { p' := SecondScan(cfg, p0, p1, keys, t); }
    } else {
      SecondHit(cfg, p, t);
      p' := MergeBoth(cfg, p0, p1, keys, t);
    }
  }

  /** Merging two chunks leads to one to put back. */
  lemma MergeBoth(cfg: Config, p0: Proto, p: Proto, keys: multiset<int>, t: Tid) returns (p': Proto)
    requires GoodFrom(cfg, p0, p, keys) && t < |p.clients| && p.clients[t].Both?
    ensures GoodFrom(cfg, p0, p', keys) && OnlyMoved(p, p', t)
    ensures p'.queues == p.queues && p'.clients[t].Put? && p'.clients[t].w.sorted
  {
    GoOn(cfg, p0, p, keys, t);
    p' := ClientStep(cfg, p, t);
  }

  /** A chunk in hand is sorted and put back, or a second one is looked for. */
  lemma HaveStep(cfg: Config, p: Proto, t: Tid)
    requires Sized(cfg, p) && t < |cfg.node| && CanStep(cfg, p, t) && p.clients[t].Have?
    ensures var p' := ClientStep(cfg, p, t);
            OnlyMoved(p, p', t) && (if p.clients[t].w.sorted then PassedEmpty(cfg, p', t) && Work(p', t) == Work(p, t)
                                    else Returns(p', t, Work(p, t)))
  {
    var w := p.clients[t].w;
    WeightPush([], w);
    assert [] + [w] == [w] == Held(p.clients[t]) && Order(cfg, t)[..0] == [];
  }

  /** With a chunk in hand a thread alone collects everything or returns a sorted chunk. */
  lemma FromHave(cfg: Config, p0: Proto, p: Proto, keys: multiset<int>, t: Tid) returns (p': Proto)
    requires GoodFrom(cfg, p0, p, keys) && t < |p.clients| && p.clients[t].Have?
    ensures GoodFrom(cfg, p0, p', keys) && OnlyMoved(p, p', t)
    ensures Collected(p', t) || Returns(p', t, Work(p, t))
  {
    GoOn(cfg, p0, p, keys, t);
    HaveStep(cfg, p, t);
    p' := ClientStep(cfg, p, t);
    if p.clients[t].w.sorted { p' := SecondScan(cfg, p0, p', keys, t); }
  }

  /** Putting a chunk back starts a new scan, with that chunk ahead. */
  lemma PutStartsOver(cfg: Config, p: Proto, t: Tid)
    requires Sized(cfg, p) && t < |cfg.node| && CanStep(cfg, p, t) && p.clients[t].Put? && p.clients[t].w.sorted
    ensures var p' := ClientStep(cfg, p, t);
            OnlyMoved(p, p', t) && Ahead(cfg, p', t, cfg.node[t]) && Work(p', t) == QueueWeight(p.queues) + 1
  {
    var q, w := cfg.node[t], p.clients[t].w;
    QueueWeightUpdate(p.queues, q, p.queues[q] + [w]);
    WeightPush(p.queues[q], w);
    assert Order(cfg, t)[..0] == [];
  }

  /** A thread alone that has something ahead of it ends up with all there is in one chunk. */
  lemma {:induction false} Collect(cfg: Config, p0: Proto, p: Proto, keys: multiset<int>, t: Tid, q: nat)
    returns (p': Proto)
    requires GoodFrom(cfg, p0, p, keys) && Ahead(cfg, p, t, q)
    ensures GoodFrom(cfg, p0, p', keys) && OnlyMoved(p, p', t) && Collected(p', t)
    decreases Work(p, t)
  {
    var p1 := ScanFinds(cfg, p0, p, keys, t, q);
    var p2 := FromHave(cfg, p0, p1, keys, t);
    if Collected(p2, t) {
      p' := p2;
    } else {
      GoOn(cfg, p0, p2, keys, t);
      PutStartsOver(cfg, p2, t);
      p' := Collect(cfg, p0, ClientStep(cfg, p2, t), keys, t, cfg.node[t]);
    }
  }

  // ------------------------------------------------------------------- all leave

  function StepsToLeave(cfg: Config, t: Tid, cl: Client): nat
    requires t < |cfg.node| && cfg.node[t] < |cfg.nextQ|
  {
    if cl.Leave? then 1
    else if cl.Scan1? && cl.pos < |Order(cfg, t)| then |Order(cfg, t)| - cl.pos + 1
    else 0
  }

  /** With all queues empty, a thread with empty hands leaves. */
  lemma {:induction false} LeavesAlone(cfg: Config, p0: Proto, p: Proto, keys: multiset<int>, t: Tid)
    returns (p': Proto)
    requires GoodFrom(cfg, p0, p, keys) && t < |cfg.node| && Rank(cfg, t, p.clients[t]) == 0 && AllEmpty(p.queues)
    ensures GoodFrom(cfg, p0, p', keys) && OnlyMoved(p, p', t) && p'.clients[t].Gone? && p'.queues == p.queues
    decreases StepsToLeave(cfg, t, p.clients[t])
  {
    if p.clients[t].Gone? {
      p' := p;
    } else {
      EmptyScan(cfg, p, keys, t);
      GoOn(cfg, p0, p, keys, t);
      p' := LeavesAlone(cfg, p0, ClientStep(cfg, p, t), keys, t);
    }
  }

  lemma EmptyScan(cfg: Config, p: Proto, keys: multiset<int>, t: Tid)
    requires Good(cfg, p, keys) && Sized(cfg, p) && t < |cfg.node| && AllEmpty(p.queues)
    requires p.clients[t].Scan1? || p.clients[t].Leave?
    ensures CanStep(cfg, p, t)
    ensures var p' := ClientStep(cfg, p, t);
            && OnlyMoved(p, p', t) && p'.queues == p.queues && Rank(cfg, t, p'.clients[t]) == 0
            && StepsToLeave(cfg, t, p'.clients[t]) < StepsToLeave(cfg, t, p.clients[t])
  {
    GoodClient(cfg, p, keys, t);
    SizedCanStep(cfg, p, t);
    StepMovesOne(cfg, p, t);
    if p.clients[t].Scan1? {
      OrderInRange(cfg, t, p.clients[t].pos);
      assert p.queues[Order(cfg, t)[p.clients[t].pos]] == [];
    }
  }

  /** All of the first n threads except t are gone. */
  ghost predicate GoneBut(p: Proto, t: Tid, n: nat) {
    n <= |p.clients| && forall u :: 0 <= u < n && u != t ==> p.clients[u].Gone?
  }

  ghost predicate RestEmptyHanded(cfg: Config, p: Proto, t: Tid) {
    Sized(cfg, p) && forall u :: 0 <= u < |p.clients| && u != t ==> Rank(cfg, u, p.clients[u]) == 0
  }

  lemma OneMoreGone(cfg: Config, p: Proto, p': Proto, t: Tid, u: Tid)
    requires Collected(p, t) && RestEmptyHanded(cfg, p, t) && GoneBut(p, t, u) && u < |p.clients| && u != t
    requires Sized(cfg, p') && OnlyMoved(p, p', u) && p'.clients[u].Gone? && p'.queues == p.queues
    ensures Collected(p', t) && RestEmptyHanded(cfg, p', t) && GoneBut(p', t, u + 1)
  {}

  lemma {:induction false} OthersLeave(cfg: Config, p0: Proto, p: Proto, keys: multiset<int>, t: Tid, n: nat)
    returns (p': Proto)
    requires GoodFrom(cfg, p0, p, keys) && Collected(p, t) && RestEmptyHanded(cfg, p, t) && n <= |cfg.node|
    ensures GoodFrom(cfg, p0, p', keys) && Collected(p', t) && RestEmptyHanded(cfg, p', t) && GoneBut(p', t, n)
  {
    if n == 0 {
      p' := p;
    } else {
      var u := n - 1;
      p' := OthersLeave(cfg, p0, p, keys, t, u);
      if u != t {
        var p1 := p';
        p' := LeavesAlone(cfg, p0, p1, keys, u);
        OneMoreGone(cfg, p1, p', t, u);
      }
    }
  }

  ghost predicate AllGone(p: Proto) { forall u :: 0 <= u < |p.clients| ==> p.clients[u].Gone? }

  lemma {:induction false} GoneAre(clients: seq<Client>, t: Tid)
    requires t < |clients| && !clients[t].Gone? && forall u :: 0 <= u < |clients| && u != t ==> clients[u].Gone?
    ensures GoneCount(clients) == |clients| - 1
  {
    var n := |clients| - 1;
    if t < n { GoneAre(clients[..n], t); } else { AreGone(clients[..n]); }
  }

  lemma {:induction false} AreGone(clients: seq<Client>)
    requires forall u :: 0 <= u < |clients| ==> clients[u].Gone?
    ensures GoneCount(clients) == |clients|
  {
    if clients != [] { AreGone(clients[..|clients| - 1]); }
  }

  /** The counters are as the last thread's checks want them. */
  lemma LastCounters(cfg: Config, p: Proto, keys: multiset<int>, t: Tid)
    requires Good(cfg, p, keys) && t < |p.clients| && (p.clients[t].Check1? || p.clients[t].Check2?)
    requires GoneBut(p, t, |p.clients|)
    ensures p.entered == |p.clients| && p.exited == |p.clients| - 1
  {
    var tags :| ProtoInv(cfg, p, tags, keys);
    GoneAre(p.clients, t);
    EnterNone(p.clients);
  }

  /** The last thread's own steps: both checks succeed, it publishes, and leaves. */
  lemma LastStep(cfg: Config, p: Proto, keys: multiset<int>, t: Tid, p': Proto)
    requires Good(cfg, p, keys) && Sized(cfg, p) && t < |cfg.node| && GoneBut(p, t, |p.clients|)
    requires CanStep(cfg, p, t) && p' == ClientStep(cfg, p, t) && |p'.clients| == |p.clients|
    ensures p.clients[t].Check1? ==> p'.clients[t].Check2? && GoneBut(p', t, |p'.clients|)
    ensures p.clients[t].Check2? ==> p'.clients[t].Leave? && GoneBut(p', t, |p'.clients|)
    ensures p.clients[t].Leave? ==> p'.clients[t].Gone? && GoneBut(p', t, |p'.clients|)
  {
    if p.clients[t].Check1? || p.clients[t].Check2? { LastCounters(cfg, p, keys, t); }
  }

  lemma LastLeaves(cfg: Config, p0: Proto, p: Proto, keys: multiset<int>, t: Tid) returns (p': Proto)
    requires GoodFrom(cfg, p0, p, keys) && t < |p.clients| && p.clients[t].Check1? && GoneBut(p, t, |p.clients|)
    ensures GoodFrom(cfg, p0, p', keys) && AllGone(p')
  {
    GoOn(cfg, p0, p, keys, t);
    LastStep(cfg, p, keys, t, ClientStep(cfg, p, t));
    var p1 := ClientStep(cfg, p, t);
    GoOn(cfg, p0, p1, keys, t);
    LastStep(cfg, p1, keys, t, ClientStep(cfg, p1, t));
    var p2 := ClientStep(cfg, p1, t);
    GoOn(cfg, p0, p2, keys, t);
    LastStep(cfg, p2, keys, t, ClientStep(cfg, p2, t));
    p' := ClientStep(cfg, p2, t);
  }

  /** Everyone is leaving, and the first n are gone. */
  ghost predicate Leaving(p: Proto, n: nat) {
    AllEmpty(p.queues) && forall u :: 0 <= u < |p.clients| ==> p.clients[u].Gone? || (p.clients[u].Leave? && u >= n)
  }

  lemma OneMoreLeft(p: Proto, p': Proto, u: Tid)
    requires Leaving(p, u) && u < |p.clients| && OnlyMoved(p, p', u) && p'.clients[u].Gone? && p'.queues == p.queues
    ensures Leaving(p', u + 1)
  {}

  lemma LeavingRank(cfg: Config, p: Proto, n: nat, u: Tid)
    requires Sized(cfg, p) && Leaving(p, n) && u < |p.clients|
    ensures Rank(cfg, u, p.clients[u]) == 0
  {}

  lemma NextLeaves(cfg: Config, p0: Proto, p: Proto, keys: multiset<int>, u: Tid) returns (p': Proto)
    requires GoodFrom(cfg, p0, p, keys) && u < |cfg.node| && Leaving(p, u)
    ensures GoodFrom(cfg, p0, p', keys) && Leaving(p', u + 1)
  {
    LeavingRank(cfg, p, u, u);
    p' := LeavesAlone(cfg, p0, p, keys, u);
    OneMoreLeft(p, p', u);
  }

  /** After publication everyone only has to leave. */
  lemma {:induction false} LeaveAll(cfg: Config, p0: Proto, p: Proto, keys: multiset<int>, n: nat) returns (p': Proto)
    requires GoodFrom(cfg, p0, p, keys) && n <= |cfg.node| && Leaving(p, 0)
    ensures GoodFrom(cfg, p0, p', keys) && Leaving(p', n)
  {
    if n == 0 {
      p' := p;
    } else {
      var u := n - 1;
      var p1 := LeaveAll(cfg, p0, p, keys, u);
      p' := NextLeaves(cfg, p0, p1, keys, u);
    }
  }

  // ------------------------------------------------------------------ main result

  /** When all hands are empty and nothing is published, some thread has a chunk ahead. */
  lemma SomeoneAhead(cfg: Config, p: Proto, keys: multiset<int>) returns (t: Tid, q: nat)
    requires Good(cfg, p, keys) && Sized(cfg, p) && Settled(cfg, p, |p.clients|) && p.out == []
    ensures t < |cfg.node| && Ahead(cfg, p, t, q)
  {
    var tags :| ProtoInv(cfg, p, tags, keys);
    forall u | 0 <= u < |p.clients| ensures Held(p.clients[u]) == [] { assert Rank(cfg, u, p.clients[u]) == 0; }
    q :| 0 <= q < |p.queues| && p.queues[q] != [];
    t := NotOverlooked(cfg, p, tags, q);
    assert Rank(cfg, t, p.clients[t]) == 0 && ClientOk(cfg, t, p.clients[t]);
  }

  /** From every good state some schedule lets every thread finish. */
  lemma EveryoneCanFinish(cfg: Config, p: Proto, keys: multiset<int>) returns (p': Proto)
    requires Good(cfg, p, keys)
    ensures Reaches(cfg, p, p') && Good(cfg, p', keys) && AllGone(p')
  {
    GoodStep(cfg, p, keys, 0);
    var p1 := SettleAll(cfg, p, keys, |cfg.node|);
    if p1.out == [] {
      var t, q := SomeoneAhead(cfg, p1, keys);
      var p2 := Collect(cfg, p, p1, keys, t, q);
      var p3 := OthersLeave(cfg, p, p2, keys, t, |cfg.node|);
      p' := LastLeaves(cfg, p, p3, keys, t);
    } else {
      var tags :| ProtoInv(cfg, p1, tags, keys);
      p' := LeaveAll(cfg, p, p1, keys, |cfg.node|);
    }
  }
}
