/** The whole work-queue sort, fine grained: the client protocol running on the
    linked queues, one shared access per step, in any interleaving. It refines the
    protocol over atomic queues, so its output is right in every run. */
module QueueSort {
  import opened SortedSeqs
  import opened Chunks
  import opened WorkQueue
  import opened SortProtocol

  datatype System = System(s: State, clients: seq<Client>, entered: nat, exited: nat, out: seq<seq<int>>)

  /** A scheduling choice: who moves, and what malloc returns if it allocates. */
  datatype Choice = Choice(t: Tid, node: NodeId, garbage: NodeId)

  ghost predicate Enabled(cfg: Config, f: System, ch: Choice) {
    && ch.t < |f.clients| == |f.s.threads| == |cfg.node| && cfg.node[ch.t] < |cfg.nextQ| == |f.s.queues|
    && var (cl, pc) := (f.clients[ch.t], f.s.threads[ch.t]);
       if !AtQueue(cl) then pc.Idle?
       else if pc.Idle? then
         var r := NextRequest(cfg, ch.t, cl);
         r.Some? && CanStart(f.s, ch.t, r.value, ch.node)
       else !pc.Done? ==> Defined(f.s, ch.t)
  }

  /** The part of the system that local client steps read and write. */
  function View(f: System, c: Contents): Proto {
    Proto(c, f.clients, f.entered, f.exited, f.out)
  }

  ghost function SystemStep(cfg: Config, f: System, ch: Choice): System
    requires Enabled(cfg, f, ch)
  {
    var (t, cl, pc) := (ch.t, f.clients[ch.t], f.s.threads[ch.t]);
    if !AtQueue(cl) then
      var p := LocalStep(View(f, []), t);
      f.(clients := p.clients, entered := p.entered, exited := p.exited, out := p.out)
    else if pc.Idle? then f.(s := Start(f.s, t, NextRequest(cfg, t, cl).value, ch.node, ch.garbage))
    else if pc.Done? then f.(s := Finish(f.s, t), clients := f.clients[t := Advance(cfg, t, cl, pc.resp)])
    else f.(s := Step(f.s, t))
  }

  /** A client whose operation has taken effect already counts as past it. */
  function AbsClient(cfg: Config, t: Tid, cl: Client, pc: Pc): Client
    requires t < |cfg.node| && cfg.node[t] < |cfg.nextQ|
  {
    if Promise(pc).Some? then Advance(cfg, t, cl, Promise(pc).value) else cl
  }

  ghost predicate Coupled(cfg: Config, f: System, w: Witness, c: Contents) {
    && ConfigOk(cfg) && |f.clients| == |f.s.threads| == |cfg.node| && |f.s.queues| == |cfg.nextQ|
    && Inv(f.s, w, c)
    && forall t :: 0 <= t < |f.clients| ==> InStep(cfg, t, f.clients[t], f.s.threads[t])
  }

  /** A thread inside a queue operation is serving its client's request. */
  ghost predicate InStep(cfg: Config, t: Tid, cl: Client, pc: Pc)
    requires t < |cfg.node| && cfg.node[t] < |cfg.nextQ|
  {
    pc.Idle? || (AtQueue(cl) && NextRequest(cfg, t, cl).Some?
                 && (Promise(pc) == None ==> Serving(pc) == NextRequest(cfg, t, cl)))
  }

  function AbsClients(cfg: Config, f: System): seq<Client>
    requires ConfigOkNodes(cfg) && |f.clients| == |f.s.threads| == |cfg.node|
  {
    seq(|f.clients|, t requires 0 <= t < |f.clients| => AbsClient(cfg, t, f.clients[t], f.s.threads[t]))
  }

  predicate ConfigOkNodes(cfg: Config) {
    forall t :: 0 <= t < |cfg.node| ==> cfg.node[t] < |cfg.nextQ|
  }

  function Abs(cfg: Config, f: System, c: Contents): Proto
    requires ConfigOkNodes(cfg) && |f.clients| == |f.s.threads| == |cfg.node|
  {
    Proto(c, AbsClients(cfg, f), f.entered, f.exited, f.out)
  }

  /** A fine-grained step is invisible or one step of the same thread of the protocol. */
  ghost predicate Simulates(cfg: Config, f: System, c: Contents, t: Tid, f': System, w': Witness, c': Contents) {
    && Coupled(cfg, f', w', c') && ConfigOkNodes(cfg) && |f.clients| == |f.s.threads| == |cfg.node| && t < |cfg.node|
    && (Abs(cfg, f', c') == Abs(cfg, f, c)
        || (CanStep(cfg, Abs(cfg, f, c), t) && Abs(cfg, f', c') == ClientStep(cfg, Abs(cfg, f, c), t)))
  }

  lemma AbsClientsUpdate(cfg: Config, f: System, t: Tid, f': System)
    requires ConfigOkNodes(cfg) && |f.clients| == |f.s.threads| == |cfg.node| && t < |cfg.node|
    requires |f'.clients| == |f.clients| && |f'.s.threads| == |f.s.threads|
    requires forall u :: 0 <= u < |f.clients| && u != t ==>
               f'.clients[u] == f.clients[u] && f'.s.threads[u] == f.s.threads[u]
    ensures AbsClients(cfg, f') == AbsClients(cfg, f)[t := AbsClient(cfg, t, f'.clients[t], f'.s.threads[t])]
  {}

  lemma LocalSimulates(cfg: Config, f: System, w: Witness, c: Contents, ch: Choice)
    requires Coupled(cfg, f, w, c) && Enabled(cfg, f, ch) && !AtQueue(f.clients[ch.t])
    ensures Simulates(cfg, f, c, ch.t, SystemStep(cfg, f, ch), w, c)
    ensures CanStep(cfg, Abs(cfg, f, c), ch.t)
    ensures Abs(cfg, SystemStep(cfg, f, ch), c) == ClientStep(cfg, Abs(cfg, f, c), ch.t)
  {
    var f', t := SystemStep(cfg, f, ch), ch.t;
    AbsClientsUpdate(cfg, f, t, f');
    assert AbsClients(cfg, f)[t] == f.clients[t];
    forall u | 0 <= u < |f'.clients| ensures InStep(cfg, u, f'.clients[u], f'.s.threads[u]) {
      assert InStep(cfg, u, f.clients[u], f.s.threads[u]);
    }
  }

  lemma StartSimulates(cfg: Config, f: System, w: Witness, c: Contents, ch: Choice) returns (w': Witness)
    requires Coupled(cfg, f, w, c) && Enabled(cfg, f, ch) && AtQueue(f.clients[ch.t]) && f.s.threads[ch.t].Idle?
    ensures Simulates(cfg, f, c, ch.t, SystemStep(cfg, f, ch), w', c)
    ensures Abs(cfg, SystemStep(cfg, f, ch), c) == Abs(cfg, f, c)
  {
    var f', t := SystemStep(cfg, f, ch), ch.t;
    w' := StartRefines(f.s, w, c, t, NextRequest(cfg, t, f.clients[t]).value, ch.node, ch.garbage);
    AbsClientsUpdate(cfg, f, t, f');
    forall u | 0 <= u < |f'.clients| ensures InStep(cfg, u, f'.clients[u], f'.s.threads[u]) {
      assert InStep(cfg, u, f.clients[u], f.s.threads[u]);
    }
    assert AbsClients(cfg, f') == AbsClients(cfg, f);
  }

  lemma FinishSimulates(cfg: Config, f: System, w: Witness, c: Contents, ch: Choice)
    requires Coupled(cfg, f, w, c) && Enabled(cfg, f, ch) && AtQueue(f.clients[ch.t]) && f.s.threads[ch.t].Done?
    ensures Simulates(cfg, f, c, ch.t, SystemStep(cfg, f, ch), w, c)
    ensures Abs(cfg, SystemStep(cfg, f, ch), c) == Abs(cfg, f, c)
  {
    var f', t := SystemStep(cfg, f, ch), ch.t;
    FinishRefines(f.s, w, c, t);
    AbsClientsUpdate(cfg, f, t, f');
    forall u | 0 <= u < |f'.clients| ensures InStep(cfg, u, f'.clients[u], f'.s.threads[u]) {
      assert InStep(cfg, u, f.clients[u], f.s.threads[u]);
    }
    assert AbsClients(cfg, f') == AbsClients(cfg, f);
  }

  lemma MoveSimulates(cfg: Config, f: System, w: Witness, c: Contents, ch: Choice)
    returns (w': Witness, c': Contents)
    requires Coupled(cfg, f, w, c) && Enabled(cfg, f, ch) && AtQueue(f.clients[ch.t]) && Working(f.s, ch.t)
    ensures Simulates(cfg, f, c, ch.t, SystemStep(cfg, f, ch), w', c')
    ensures if TakesEffect(f.s, ch.t)
            then CanStep(cfg, Abs(cfg, f, c), ch.t)
                 && Abs(cfg, SystemStep(cfg, f, ch), c') == ClientStep(cfg, Abs(cfg, f, c), ch.t)
            else Abs(cfg, SystemStep(cfg, f, ch), c') == Abs(cfg, f, c)
  {
    var f', t := SystemStep(cfg, f, ch), ch.t;
    assert InStep(cfg, t, f.clients[t], f.s.threads[t]);
    w', c' := StepRefines(f.s, w, c, t);
    forall u | 0 <= u < |f.clients| && u != t ensures f'.s.threads[u] == f.s.threads[u] {}
    AbsClientsUpdate(cfg, f, t, f');
    forall u | 0 <= u < |f'.clients| ensures InStep(cfg, u, f'.clients[u], f'.s.threads[u]) {
      assert InStep(cfg, u, f.clients[u], f.s.threads[u]);
    }
    if Promise(f.s.threads[t]) == None && Promise(f'.s.threads[t]) != None {
      assert AbsClients(cfg, f)[t] == f.clients[t];
    } else {
      assert AbsClients(cfg, f') == AbsClients(cfg, f);
    }
  }

  lemma SystemSimulates(cfg: Config, f: System, w: Witness, c: Contents, ch: Choice)
    returns (w': Witness, c': Contents)
    requires Coupled(cfg, f, w, c) && Enabled(cfg, f, ch)
    ensures Simulates(cfg, f, c, ch.t, SystemStep(cfg, f, ch), w', c')
  {
    w', c' := w, c;
    if !AtQueue(f.clients[ch.t]) {
      LocalSimulates(cfg, f, w, c, ch);
    } else if f.s.threads[ch.t].Idle? {
      w' := StartSimulates(cfg, f, w, c, ch);
    } else if f.s.threads[ch.t].Done? {
      FinishSimulates(cfg, f, w, c, ch);
    } else {
      w', c' := MoveSimulates(cfg, f, w, c, ch);
    }
  }

  // ---------------------------------------------------------------- all runs

  ghost predicate IsRun(cfg: Config, f: System, run: seq<Choice>)
    decreases |run|, 0
  {
    run == [] || (IsRun(cfg, f, run[..|run| - 1]) && Enabled(cfg, After(cfg, f, run[..|run| - 1]), run[|run| - 1]))
  }

  ghost function After(cfg: Config, f: System, run: seq<Choice>): System
    requires IsRun(cfg, f, run)
    decreases |run|, 1
  {
    if run == [] then f else SystemStep(cfg, After(cfg, f, run[..|run| - 1]), run[|run| - 1])
  }

  /** Queues filled with unsorted chunks c, no operation under way, nobody entered. */
  ghost predicate Ready(cfg: Config, f: System, w: Witness, c: Contents) {
    && Inv(f.s, w, c) && Initial(cfg, View(f, c))
    && |f.s.threads| == |f.clients|
    && forall t :: 0 <= t < |f.s.threads| ==> f.s.threads[t] == Idle
  }

  lemma {:induction false} RunKeeps(cfg: Config, f: System, w: Witness, c: Contents, run: seq<Choice>)
    returns (w': Witness, c': Contents, tags: Tags)
    requires Ready(cfg, f, w, c) && IsRun(cfg, f, run)
    ensures Coupled(cfg, After(cfg, f, run), w', c')
    ensures ProtoInv(cfg, Abs(cfg, After(cfg, f, run), c'), tags, QueueKeys(c))
    decreases |run|
  {
    if run == [] {
      w', c' := w, c;
      assert AbsClients(cfg, f) == f.clients;
      tags := InitialOk(cfg, View(f, c));
    } else {
      var before, last := run[..|run| - 1], run[|run| - 1];
      var w1, c1, tags1 := RunKeeps(cfg, f, w, c, before);
      var g := After(cfg, f, before);
      w', c' := SystemSimulates(cfg, g, w1, c1, last);
      tags := tags1;
      if Abs(cfg, After(cfg, f, run), c') != Abs(cfg, g, c1) {
        tags := StepKeeps(cfg, Abs(cfg, g, c1), tags1, QueueKeys(c), last.t);
      }
    }
  }

  lemma GoneInAbs(cfg: Config, g: System, w: Witness, c: Contents)
    requires Coupled(cfg, g, w, c) && forall t :: 0 <= t < |g.clients| ==> g.clients[t].Gone?
    ensures forall t :: 0 <= t < |Abs(cfg, g, c).clients| ==> Abs(cfg, g, c).clients[t].Gone?
  {
    forall t | 0 <= t < |g.clients| ensures Abs(cfg, g, c).clients[t].Gone? {
      assert InStep(cfg, t, g.clients[t], g.s.threads[t]);
    }
  }

  lemma OutputIsSorted(p: Proto, keys: multiset<int>)
    requires OutputOk(p, keys)
    ensures |p.out| <= 1 && (p.out != [] ==> p.out[0] == Sort(p.out[0]) && multiset(p.out[0]) == keys)
  {
    if p.out != [] { SortFixpoint(p.out[0]); }
  }

  /** In every interleaving at most one array is published, and it is the sorted
      permutation of all keys queued at the start; once every thread has finished,
      exactly one has been. */
  lemma EveryRunSorts(cfg: Config, f: System, w: Witness, c: Contents, run: seq<Choice>)
    requires Ready(cfg, f, w, c) && IsRun(cfg, f, run)
    ensures var g := After(cfg, f, run);
            && |g.out| <= 1
            && (g.out != [] ==> g.out[0] == Sort(g.out[0]) && multiset(g.out[0]) == QueueKeys(c))
            && ((forall t :: 0 <= t < |g.clients| ==> g.clients[t].Gone?) ==> |g.out| == 1)
  {
    var g := After(cfg, f, run);
    var w', c', tags := RunKeeps(cfg, f, w, c, run);
    var p := Abs(cfg, g, c');
    OutputIsSorted(p, QueueKeys(c));
    if forall t :: 0 <= t < |g.clients| ==> g.clients[t].Gone? {
      GoneInAbs(cfg, g, w', c');
      ExactlyOnePublishes(cfg, p, tags, QueueKeys(c));
    }
  }

  /** In every run: while a queue holds an item, some thread has not seen that queue empty since it
      last held something new. */
  lemma ItemsAreNotOverlooked(cfg: Config, f: System, w: Witness, c: Contents, run: seq<Choice>, q: nat)
    returns (y: Tid)
    requires Ready(cfg, f, w, c) && IsRun(cfg, f, run)
    requires q < |After(cfg, f, run).s.queues| && After(cfg, f, run).s.queues[q].size != 0
    ensures var g := After(cfg, f, run);
            && y < |g.clients| == |g.s.threads| == |cfg.node| && cfg.node[y] < |cfg.nextQ|
            && !Seen(cfg, y, AbsClient(cfg, y, g.clients[y], g.s.threads[y]), q)
  {
    var g := After(cfg, f, run);
    var w', c', tags := RunKeeps(cfg, f, w, c, run);
    assert QueueOk(g.s, w', c', q);
    y := NotOverlooked(cfg, Abs(cfg, g, c'), tags, q);
  }

  // ------------------------------------------------------------------ a run to start from

  /** One queue with one unsorted chunk, and one thread. */
  lemma OneChunkIsReady(chunk: Chunk)
    requires !chunk.sorted
    ensures var cfg := Config([0], [[0]]);
            var s := State([Queue(None, 0, 1, 1)], map[0 := Node(chunk, 1), 1 := Node(chunk, 0)], [Idle]);
            Ready(cfg, System(s, [Enter], 0, 0, []), Witness([[0, 1]], map[0 := InQueue(0), 1 := InQueue(0)]),
                  [[chunk]])
  {
    var s := State([Queue(None, 0, 1, 1)], map[0 := Node(chunk, 1), 1 := Node(chunk, 0)], [Idle]);
    var w, c: Contents := Witness([[0, 1]], map[0 := InQueue(0), 1 := InQueue(0)]), [[chunk]];
    assert Linked(s.heap, w.chains[0], c[0]) && QueueOk(s, w, c, 0);
    assert View(System(s, [Enter], 0, 0, []), c).queues[0] != [];
  }

  // ------------------------------------------------------------- no thread is stuck

  /** Some node is not allocated. */
  lemma {:induction false} FreshNode(used: set<NodeId>) returns (node: NodeId)
    ensures node !in used && forall x :: x in used ==> x < node
    decreases |used|
  {
    if used == {} {
      node := 0;
    } else {
      var y :| y in used;
      var z := FreshNode(used - {y});
      node := if y < z then z else y + 1;
      forall x | x in used ensures x < node { assert x == y || x in used - {y}; }
    }
  }

  lemma IdleCanMove(cfg: Config, g: System, w: Witness, c: Contents, ch: Choice)
    requires Coupled(cfg, g, w, c) && ch.t < |cfg.node| && AtQueue(g.clients[ch.t]) && g.s.threads[ch.t].Idle?
    requires ClientOk(cfg, ch.t, g.clients[ch.t]) && ch.node !in g.s.heap
    ensures Enabled(cfg, g, ch)
  {
    var cl := g.clients[ch.t];
    if cl.Scan1? || cl.Scan2? { OrderInRange(cfg, ch.t, cl.pos); }
  }

  lemma BusyCanMove(cfg: Config, g: System, w: Witness, c: Contents, ch: Choice)
    requires Coupled(cfg, g, w, c) && ch.t < |cfg.node| && !g.s.threads[ch.t].Idle?
    ensures AtQueue(g.clients[ch.t]) && Enabled(cfg, g, ch)
  {
    assert InStep(cfg, ch.t, g.clients[ch.t], g.s.threads[ch.t]);
    if Working(g.s, ch.t) { var w1, c1 := StepRefines(g.s, w, c, ch.t); }
  }

  lemma CanMove(cfg: Config, g: System, w: Witness, c: Contents, ch: Choice)
    requires Coupled(cfg, g, w, c) && ch.t < |cfg.node| && ch.node !in g.s.heap
    requires ClientOk(cfg, ch.t, AbsClient(cfg, ch.t, g.clients[ch.t], g.s.threads[ch.t]))
    ensures Enabled(cfg, g, ch)
  {
    if !g.s.threads[ch.t].Idle? {
      BusyCanMove(cfg, g, w, c, ch);
    } else if AtQueue(g.clients[ch.t]) {
      IdleCanMove(cfg, g, w, c, ch);
    }
  }

  /** In every reachable state each thread's next access is defined: it follows only
      allocated nodes and names only queues that exist. */
  lemma EveryThreadCanMove(cfg: Config, f: System, w: Witness, c: Contents, run: seq<Choice>, t: Tid)
    returns (ch: Choice)
    requires Ready(cfg, f, w, c) && IsRun(cfg, f, run) && t < |cfg.node|
    ensures ch.t == t && Enabled(cfg, After(cfg, f, run), ch)
  {
    var g := After(cfg, f, run);
    var w', c', tags := RunKeeps(cfg, f, w, c, run);
    var node := FreshNode(g.s.heap.Keys);
    ch := Choice(t, node, 0);
    assert AbsClients(cfg, g)[t] == AbsClient(cfg, t, g.clients[t], g.s.threads[t]);
    assert ClientOk(cfg, t, AbsClients(cfg, g)[t]);
    CanMove(cfg, g, w', c', ch);
  }
}
