/** The client of the work queues: threads steal chunks, sort them, merge them in
    pairs and put them back; the thread that finds itself last publishes. Here each
    queue operation happens at one instant, but a scan over the queues does not. */
module SortProtocol {
  import opened SortedSeqs
  import opened Chunks
  import opened WorkQueue

  /** Where each thread's own queue is, and in which order each queue steals. */
  datatype Config = Config(node: seq<nat>, nextQ: seq<seq<nat>>)

  datatype Client =
    | Enter
    | Scan1(pos: nat)
    | Have(w: Chunk)
    | Scan2(w: Chunk, pos: nat)
    | Both(w: Chunk, w1: Chunk)
    | Check1(w: Chunk)
    | Check2(w: Chunk)
    | Put(w: Chunk)
    | Leave
    | Gone

  datatype Proto = Proto(queues: Contents, clients: seq<Client>, entered: nat, exited: nat, out: seq<seq<int>>)

  /** The queues a dequeue tries, in order: the thread's own, then its steal order. */
  function Order(cfg: Config, t: Tid): seq<nat>
    requires t < |cfg.node| && cfg.node[t] < |cfg.nextQ|
  {
    [cfg.node[t]] + cfg.nextQ[cfg.node[t]]
  }

  /** Every thread has a queue and every scan visits every queue. */
  ghost predicate ConfigOk(cfg: Config) {
    && |cfg.node| > 0 && |cfg.nextQ| > 0
    && (forall t :: 0 <= t < |cfg.node| ==> cfg.node[t] < |cfg.nextQ|)
    && (forall i, q :: 0 <= i < |cfg.nextQ| && q in cfg.nextQ[i] ==> q < |cfg.nextQ|)
    && (forall i, q :: 0 <= i < |cfg.nextQ| && 0 <= q < |cfg.nextQ| ==> q in cfg.nextQ[i])
  }

  function SortChunk(w: Chunk): (r: Chunk)
    ensures r.sorted && multiset(r.keys) == multiset(w.keys)
    ensures w.Honest() ==> r.Honest()
  {
    if w.sorted then w else Chunk(Sort(w.keys), true)
  }

  function MergeChunks(w: Chunk, w1: Chunk): (r: Chunk)
    ensures r.sorted
  {
    Chunk(Merge(w.keys, SortChunk(w1).keys), true)
  }

  lemma MergeChunksOk(w: Chunk, w1: Chunk)
    requires w.sorted && w.Honest() && w1.Honest()
    ensures MergeChunks(w, w1).Honest()
    ensures multiset(MergeChunks(w, w1).keys) == multiset(w.keys) + multiset(w1.keys)
  {
    MergeSorted(w.keys, SortChunk(w1).keys);
    MergeMultiset(w.keys, SortChunk(w1).keys);
  }

  // -------------------------------------------------------------------- steps

  /** The queue operation a client is about to do, if any. */
  function NextRequest(cfg: Config, t: Tid, cl: Client): Option<Request>
    requires t < |cfg.node| && cfg.node[t] < |cfg.nextQ|
  {
    match cl
    case Scan1(pos) => if pos < |Order(cfg, t)| then Some(Dequeue(Order(cfg, t)[pos])) else None
    case Scan2(_, pos) => if pos < |Order(cfg, t)| then Some(Dequeue(Order(cfg, t)[pos])) else None
    case Put(w) => Some(Enqueue(cfg.node[t], w))
    case _ => None
  }

  /** Where a client goes with the response to its queue operation. */
  function Advance(cfg: Config, t: Tid, cl: Client, resp: Response): Client
    requires t < |cfg.node| && cfg.node[t] < |cfg.nextQ|
  {
    match cl
    case Scan1(pos) =>
      if resp.Dequeued? && resp.item.Some? then Have(resp.item.value)
      else if pos + 1 < |Order(cfg, t)| then Scan1(pos + 1) else Leave
    case Scan2(w, pos) =>
      if resp.Dequeued? && resp.item.Some? then Both(w, resp.item.value)
      else if pos + 1 < |Order(cfg, t)| then Scan2(w, pos + 1) else Check1(w)
    case Put(_) => Scan1(0)
    case _ => cl
  }

  predicate AtQueue(cl: Client) { cl.Scan1? || cl.Scan2? || cl.Put? }

  /** The steps between queue operations: sorting, merging, counters, publication. */
  function LocalStep(p: Proto, t: Tid): Proto
    requires t < |p.clients|
  {
    match p.clients[t]
    case Enter => p.(entered := p.entered + 1, clients := p.clients[t := Scan1(0)])
    case Have(w) => p.(clients := p.clients[t := if w.sorted then Scan2(w, 0) else Put(SortChunk(w))])
    case Both(w, w1) => p.(clients := p.clients[t := Put(MergeChunks(w, w1))])
    case Check1(w) => p.(clients := p.clients[t := if p.entered == |p.clients| then Check2(w) else Put(w)])
    case Check2(w) =>
      if p.exited == |p.clients| - 1
      then p.(out := p.out + [w.keys], clients := p.clients[t := Leave])
      else p.(clients := p.clients[t := Put(w)])
    case Leave => p.(exited := p.exited + 1, clients := p.clients[t := Gone])
    case _ => p
  }

  function QueueStep(cfg: Config, p: Proto, t: Tid, r: Request): Proto
    requires t < |p.clients| == |cfg.node| && cfg.node[t] < |cfg.nextQ|
    requires r.SizeAll? || r.q < |p.queues|
  {
    var (queues, resp) := Apply(p.queues, r);
    p.(queues := queues, clients := p.clients[t := Advance(cfg, t, p.clients[t], resp)])
  }

  predicate CanStep(cfg: Config, p: Proto, t: Tid) {
    && t < |p.clients| == |cfg.node| && cfg.node[t] < |cfg.nextQ| == |p.queues|
    && var r := NextRequest(cfg, t, p.clients[t]);
       r.Some? ==> r.value.SizeAll? || r.value.q < |p.queues|
  }

  function ClientStep(cfg: Config, p: Proto, t: Tid): Proto
    requires CanStep(cfg, p, t)
  {
    var r := NextRequest(cfg, t, p.clients[t]);
    if r.Some? then QueueStep(cfg, p, t, r.value) else LocalStep(p, t)
  }

  /** What a client does between queue operations: an unsorted chunk goes back sorted, a sorted one is kept
      for the search of a partner, two are merged and go back as one. A thread without a partner goes on
      only when all have entered, and publishes only when all others have left; else it puts its chunk back. */
  lemma ClientDoes(p: Proto, t: Tid)
    requires t < |p.clients|
    ensures var cl, cl' := p.clients[t], LocalStep(p, t).clients[t];
            && (cl.Have? && !cl.w.sorted ==> cl' == Put(Chunk(Sort(cl.w.keys), true)))
            && (cl.Have? && cl.w.sorted ==> cl' == Scan2(cl.w, 0))
            && (cl.Both? && cl.w.sorted && cl.w.Honest() && cl.w1.Honest() ==>
                  cl' == Put(Chunk(Sort(cl.w.keys + cl.w1.keys), true)))
            && (cl.Check1? ==> cl' == if p.entered == |p.clients| then Check2(cl.w) else Put(cl.w))
            && (cl.Check2? ==> cl' == if p.exited == |p.clients| - 1 then Leave else Put(cl.w))
            && (cl.Enter? ==> cl' == Scan1(0)) && (cl.Leave? ==> cl' == Gone)
    ensures LocalStep(p, t).queues == p.queues && LocalStep(p, t).clients == p.clients[t := LocalStep(p, t).clients[t]]
    ensures LocalStep(p, t).entered == p.entered + (if p.clients[t].Enter? then 1 else 0)
    ensures LocalStep(p, t).exited == p.exited + (if p.clients[t].Leave? then 1 else 0)
    ensures LocalStep(p, t).out == if p.clients[t].Check2? && p.exited == |p.clients| - 1
                                   then p.out + [p.clients[t].w.keys] else p.out
  {
    var cl := p.clients[t];
    if cl.Both? && cl.w.sorted && cl.w.Honest() && cl.w1.Honest() {
      MergeChunksOk(cl.w, cl.w1);
      SortedUnique(MergeChunks(cl.w, cl.w1).keys, Sort(cl.w.keys + cl.w1.keys));
    }
  }

  /** A thread puts its chunk into its own queue, and scans again. */
  lemma PutsIntoOwnQueue(cfg: Config, p: Proto, t: Tid)
    requires t < |p.clients| == |cfg.node| && cfg.node[t] < |cfg.nextQ| == |p.queues| && p.clients[t].Put?
    ensures CanStep(cfg, p, t)
    ensures ClientStep(cfg, p, t) == p.(queues := p.queues[cfg.node[t] := p.queues[cfg.node[t]] + [p.clients[t].w]],
                                        clients := p.clients[t := Scan1(0)])
  {}

  // ---------------------------------------------------------------- invariant

  /** What a client holds in its hands. */
  function Held(cl: Client): seq<Chunk> {
    match cl
    case Have(w) => [w]
    case Scan2(w, _) => [w]
    case Both(w, w1) => [w, w1]
    case Check1(w) => [w]
    case Check2(w) => [w]
    case Put(w) => [w]
    case _ => []
  }

  /** Since thread t last held something new, its scan has found queue q empty. */
  predicate Seen(cfg: Config, t: Tid, cl: Client, q: nat)
    requires t < |cfg.node| && cfg.node[t] < |cfg.nextQ|
  {
    match cl
    case Scan1(pos) => pos <= |Order(cfg, t)| && q in Order(cfg, t)[..pos]
    case Scan2(_, pos) => pos <= |Order(cfg, t)| && q in Order(cfg, t)[..pos]
    case Check1(_) => true
    case Check2(_) => true
    case Leave => true
    case Gone => true
    case _ => false
  }

  /** Who put each queued chunk there; None for the initial ones. */
  type Tags = seq<seq<Option<Tid>>>

  /** The heart of the protocol: a chunk that is still queued has not been overlooked
      by the thread that put it there, nor by anyone if it was there from the start. */
  ghost predicate TagOk(cfg: Config, clients: seq<Client>, tag: Option<Tid>, q: nat)
    requires ConfigOk(cfg) && |clients| == |cfg.node|
  {
    match tag
    case Some(y) => y < |clients| && !Seen(cfg, y, clients[y], q)
    case None => forall y :: 0 <= y < |clients| ==> !Seen(cfg, y, clients[y], q)
  }

  ghost predicate Shape(cfg: Config, p: Proto, tags: Tags) {
    && ConfigOk(cfg) && |p.clients| == |cfg.node| && |p.queues| == |tags| == |cfg.nextQ|
    && (forall q :: 0 <= q < |tags| ==> |tags[q]| == |p.queues[q]|)
  }

  ghost predicate TagsOk(cfg: Config, p: Proto, tags: Tags)
    requires Shape(cfg, p, tags)
  {
    forall q, k :: 0 <= q < |tags| && 0 <= k < |tags[q]| ==> TagOk(cfg, p.clients, tags[q][k], q)
  }

  ghost predicate ClientOk(cfg: Config, t: Tid, cl: Client)
    requires ConfigOk(cfg) && t < |cfg.node|
  {
    && (forall k :: 0 <= k < |Held(cl)| ==> Held(cl)[k].Honest())
    && (cl.Scan1? || cl.Scan2? ==> cl.pos < |Order(cfg, t)|)
    && (cl.Scan2? || cl.Both? || cl.Check1? || cl.Check2? || cl.Put? ==> cl.w.sorted)
  }

  ghost predicate AllHonest(c: Contents) {
    forall q, k :: 0 <= q < |c| && 0 <= k < |c[q]| ==> c[q][k].Honest()
  }

  function GoneCount(clients: seq<Client>): (n: nat)
    ensures n <= |clients|
  {
    if clients == [] then 0
    else GoneCount(clients[..|clients| - 1]) + if clients[|clients| - 1].Gone? then 1 else 0
  }

  function ChunkKeys(s: seq<Chunk>): multiset<int> {
    if s == [] then multiset{} else ChunkKeys(s[..|s| - 1]) + multiset(s[|s| - 1].keys)
  }

  function QueueKeys(c: Contents): multiset<int> {
    if c == [] then multiset{} else QueueKeys(c[..|c| - 1]) + ChunkKeys(c[|c| - 1])
  }

  function ClientKeys(clients: seq<Client>): multiset<int> {
    if clients == [] then multiset{}
    else ClientKeys(clients[..|clients| - 1]) + ChunkKeys(Held(clients[|clients| - 1]))
  }

  /** Some chunk is left to be published. */
  ghost predicate ChunkLeft(p: Proto) {
    (exists q :: 0 <= q < |p.queues| && p.queues[q] != []) ||
    (exists t :: 0 <= t < |p.clients| && Held(p.clients[t]) != [])
  }

  ghost predicate Finished(p: Proto) {
    && (forall t :: 0 <= t < |p.clients| ==> p.clients[t].Leave? || p.clients[t].Gone?)
    && (forall q :: 0 <= q < |p.queues| ==> p.queues[q] == [])
  }

  /** Before publication all keys are in queues and hands; after it they are in the
      one published array, sorted, and nothing else is left. */
  ghost predicate OutputOk(p: Proto, keys: multiset<int>) {
    if p.out == [] then QueueKeys(p.queues) + ClientKeys(p.clients) == keys && ChunkLeft(p)
    else |p.out| == 1 && Sorted(p.out[0]) && multiset(p.out[0]) == keys && Finished(p)
  }

  ghost predicate ProtoInv(cfg: Config, p: Proto, tags: Tags, keys: multiset<int>) {
    && Shape(cfg, p, tags)
    && TagsOk(cfg, p, tags)
    && (forall t :: 0 <= t < |p.clients| ==> ClientOk(cfg, t, p.clients[t]))
    && AllHonest(p.queues)
    && p.exited == GoneCount(p.clients)
    && OutputOk(p, keys)
  }

  // ------------------------------------------------------------ sums and counts

  lemma {:induction false} GoneUpdate(clients: seq<Client>, t: nat, cl: Client)
    requires t < |clients|
    ensures GoneCount(clients[t := cl]) + (if clients[t].Gone? then 1 else 0)
         == GoneCount(clients) + (if cl.Gone? then 1 else 0)
  {
    var n := |clients| - 1;
    if t < n {
      GoneUpdate(clients[..n], t, cl);
      assert clients[t := cl][..n] == clients[..n][t := cl];
    } else {
      assert clients[t := cl][..n] == clients[..n];
    }
  }

  lemma {:induction false} AllGone(clients: seq<Client>, u: nat)
    requires GoneCount(clients) == |clients| && u < |clients|
    ensures clients[u].Gone?
  {
    var n := |clients| - 1;
    if u < n { AllGone(clients[..n], u); }
  }

  lemma OthersGone(clients: seq<Client>, t: nat, u: nat)
    requires GoneCount(clients) == |clients| - 1 && t < |clients| && u < |clients|
    requires !clients[t].Gone? && u != t
    ensures clients[u].Gone?
  {
    GoneUpdate(clients, t, Gone);
    AllGone(clients[t := Gone], u);
  }

  lemma AddToBoth(a: multiset<int>, x: multiset<int>, b: multiset<int>, y: multiset<int>, l: multiset<int>)
    requires a + x == b + y
    ensures (a + l) + x == (b + l) + y
  {
    Exchange(a, l, x);
    Exchange(b, l, y);
  }

  lemma Exchange(l: multiset<int>, x: multiset<int>, y: multiset<int>)
    ensures (l + x) + y == (l + y) + x
  {}

  lemma QueueKeysInner(c: Contents, q: nat, s: seq<Chunk>, n: nat)
    requires |c| == n + 1 && q < n
    requires QueueKeys(c[..n][q := s]) + ChunkKeys(c[q]) == QueueKeys(c[..n]) + ChunkKeys(s)
    ensures QueueKeys(c[q := s]) + ChunkKeys(c[q]) == QueueKeys(c) + ChunkKeys(s)
  {
    assert c[q := s][..n] == c[..n][q := s];
    AddToBoth(QueueKeys(c[..n][q := s]), ChunkKeys(c[q]), QueueKeys(c[..n]), ChunkKeys(s), ChunkKeys(c[n]));
  }

  lemma QueueKeysLast(c: Contents, s: seq<Chunk>, n: nat)
    requires |c| == n + 1
    ensures QueueKeys(c[n := s]) + ChunkKeys(c[n]) == QueueKeys(c) + ChunkKeys(s)
  {
    assert c[n := s][..n] == c[..n];
    Exchange(QueueKeys(c[..n]), ChunkKeys(s), ChunkKeys(c[n]));
  }

  lemma {:induction false} QueueKeysUpdate(c: Contents, q: nat, s: seq<Chunk>)
    requires q < |c|
    ensures QueueKeys(c[q := s]) + ChunkKeys(c[q]) == QueueKeys(c) + ChunkKeys(s)
  {
    var n := |c| - 1;
    if q < n {
      QueueKeysUpdate(c[..n], q, s);
      assert c[..n][q] == c[q];
      QueueKeysInner(c, q, s, n);
    } else {
      QueueKeysLast(c, s, q);
    }
  }

  lemma ClientKeysInner(clients: seq<Client>, init: seq<Client>, t: nat, cl: Client, n: nat)
    requires |clients| == n + 1 && t < n && init == clients[..n]
    requires ClientKeys(init[t := cl]) + ChunkKeys(Held(init[t])) == ClientKeys(init) + ChunkKeys(Held(cl))
    ensures ClientKeys(clients[t := cl]) + ChunkKeys(Held(clients[t])) == ClientKeys(clients) + ChunkKeys(Held(cl))
  {
    assert clients[t := cl][..n] == init[t := cl] && init[t] == clients[t];
    AddToBoth(ClientKeys(init[t := cl]), ChunkKeys(Held(clients[t])), ClientKeys(init),
              ChunkKeys(Held(cl)), ChunkKeys(Held(clients[n])));
  }

  lemma ClientKeysLast(clients: seq<Client>, cl: Client, n: nat)
    requires |clients| == n + 1
    ensures ClientKeys(clients[n := cl]) + ChunkKeys(Held(clients[n])) == ClientKeys(clients) + ChunkKeys(Held(cl))
  {
    assert clients[n := cl][..n] == clients[..n];
    Exchange(ClientKeys(clients[..n]), ChunkKeys(Held(cl)), ChunkKeys(Held(clients[n])));
  }

  lemma {:induction false} ClientKeysUpdate(clients: seq<Client>, t: nat, cl: Client)
    requires t < |clients|
    ensures ClientKeys(clients[t := cl]) + ChunkKeys(Held(clients[t])) == ClientKeys(clients) + ChunkKeys(Held(cl))
  {
    var n := |clients| - 1;
    if t < n {
      var init := clients[..n];
      ClientKeysUpdate(init, t, cl);
      ClientKeysInner(clients, init, t, cl, n);
    } else {
      ClientKeysLast(clients, cl, t);
    }
  }

  lemma OneKeys(w: Chunk)
    ensures ChunkKeys([w]) == multiset(w.keys)
  {
    assert [w][..0] == [];
  }

  lemma TwoKeys(w: Chunk, w1: Chunk)
    ensures ChunkKeys([w, w1]) == multiset(w.keys) + multiset(w1.keys)
  {
    assert [w, w1][..1] == [w];
    OneKeys(w);
  }

  lemma PushKeys(s: seq<Chunk>, w: Chunk)
    ensures ChunkKeys(s + [w]) == ChunkKeys(s) + multiset(w.keys)
  {
    assert (s + [w])[..|s|] == s;
  }

  lemma Regroup(x: multiset<int>, y: multiset<int>, z: multiset<int>)
    ensures (x + y) + z == x + (y + z)
  {}

  lemma PopLonger(s: seq<Chunk>, init: seq<Chunk>, mid: seq<Chunk>, n: nat)
    requires |s| == n + 1 && n > 0 && init == s[..n] && mid == init[1..]
    requires ChunkKeys(init) == multiset(s[0].keys) + ChunkKeys(mid)
    ensures ChunkKeys(s) == multiset(s[0].keys) + ChunkKeys(s[1..])
  {
    assert s[1..] == mid + [s[n]];
    PushKeys(mid, s[n]);
    Regroup(multiset(s[0].keys), ChunkKeys(mid), multiset(s[n].keys));
  }

  lemma {:induction false} PopKeys(s: seq<Chunk>)
    requires s != []
    ensures ChunkKeys(s) == multiset(s[0].keys) + ChunkKeys(s[1..])
  {
    var n := |s| - 1;
    if n == 0 {
      OneKeys(s[0]);
      assert s == [s[0]];
    } else {
      var init := s[..n];
      PopKeys(init);
      PopLonger(s, init, init[1..], n);
    }
  }

  lemma {:induction false} EmptyQueuesKeys(c: Contents)
    requires forall q :: 0 <= q < |c| ==> c[q] == []
    ensures QueueKeys(c) == multiset{}
  {
    if c != [] { EmptyQueuesKeys(c[..|c| - 1]); }
  }

  lemma {:induction false} EmptyHandsKeys(clients: seq<Client>)
    requires forall t :: 0 <= t < |clients| ==> Held(clients[t]) == []
    ensures ClientKeys(clients) == multiset{}
  {
    if clients != [] { EmptyHandsKeys(clients[..|clients| - 1]); }
  }

  // ------------------------------------------------------- step preservation

  /** Thread t moves to cl', having seen no non-empty queue that it had not. */
  lemma TagsMove(cfg: Config, p: Proto, tags: Tags, t: Tid, cl': Client, p': Proto)
    requires Shape(cfg, p, tags) && TagsOk(cfg, p, tags) && t < |p.clients|
    requires p'.queues == p.queues && p'.clients == p.clients[t := cl']
    requires forall q :: 0 <= q < |tags| && tags[q] != [] && Seen(cfg, t, cl', q) ==> Seen(cfg, t, p.clients[t], q)
    ensures Shape(cfg, p', tags) && TagsOk(cfg, p', tags)
  {
    forall q, k | 0 <= q < |tags| && 0 <= k < |tags[q]| ensures TagOk(cfg, p'.clients, tags[q][k], q) {
      assert TagOk(cfg, p.clients, tags[q][k], q);
    }
  }

  lemma Cancel(a: multiset<int>, b: multiset<int>, x: multiset<int>)
    requires a + x == b + x
    ensures a == b
  {
    assert (a + x) - x == a && (b + x) - x == b;
  }

  lemma KeysMove(clients: seq<Client>, t: Tid, cl': Client)
    requires t < |clients| && ChunkKeys(Held(cl')) == ChunkKeys(Held(clients[t]))
    ensures ClientKeys(clients[t := cl']) == ClientKeys(clients)
  {
    ClientKeysUpdate(clients, t, cl');
    Cancel(ClientKeys(clients[t := cl']), ClientKeys(clients), ChunkKeys(Held(cl')));
  }

  /** What a step that touches no queue and publishes nothing must satisfy. */
  ghost predicate Quietly(cfg: Config, p: Proto, tags: Tags, t: Tid, cl': Client, p': Proto)
    requires Shape(cfg, p, tags) && t < |p.clients|
  {
    var cl := p.clients[t];
    && p'.queues == p.queues && p'.clients == p.clients[t := cl'] && p'.out == p.out
    && p'.exited + (if cl.Gone? then 1 else 0) == p.exited + (if cl'.Gone? then 1 else 0)
    && ChunkKeys(Held(cl')) == ChunkKeys(Held(cl))
    && (Held(cl) != [] ==> Held(cl') != [])
    && (cl.Leave? || cl.Gone? ==> cl'.Leave? || cl'.Gone?)
    && ClientOk(cfg, t, cl')
    && (forall q :: 0 <= q < |tags| && tags[q] != [] && Seen(cfg, t, cl', q) ==> Seen(cfg, t, cl, q))
  }

  lemma QuietOutput(cfg: Config, p: Proto, tags: Tags, keys: multiset<int>, t: Tid, cl': Client, p': Proto)
    requires Shape(cfg, p, tags) && OutputOk(p, keys) && t < |p.clients| && Quietly(cfg, p, tags, t, cl', p')
    ensures OutputOk(p', keys)
  {
    if p.out == [] {
      KeysMove(p.clients, t, cl');
      QuietLeft(p.queues, p.clients, t, cl', p, p');
    } else {
      assert p'.clients[t] == cl';
      assert Finished(p');
    }
  }

  lemma QuietLeft(queues: Contents, clients: seq<Client>, t: Tid, cl': Client, p: Proto, p': Proto)
    requires t < |clients| && (Held(clients[t]) != [] ==> Held(cl') != []) && ChunkLeft(p)
    requires p.queues == queues == p'.queues && p.clients == clients && p'.clients == clients[t := cl']
    ensures ChunkLeft(p')
  {
    if q :| 0 <= q < |queues| && queues[q] != [] {
      assert p'.queues[q] != [];
    } else {
      var u :| 0 <= u < |clients| && Held(clients[u]) != [];
      assert Held(p'.clients[u]) != [];
    }
  }

  lemma QuietClients(cfg: Config, clients: seq<Client>, t: Tid, cl': Client, clients': seq<Client>)
    requires ConfigOk(cfg) && t < |clients| == |cfg.node| && ClientOk(cfg, t, cl') && clients' == clients[t := cl']
    requires forall u :: 0 <= u < |clients| ==> ClientOk(cfg, u, clients[u])
    ensures forall u :: 0 <= u < |clients'| ==> ClientOk(cfg, u, clients'[u])
  {}

  lemma QuietKeeps(cfg: Config, p: Proto, tags: Tags, keys: multiset<int>, t: Tid, cl': Client, p': Proto)
    requires ProtoInv(cfg, p, tags, keys) && t < |p.clients| && Quietly(cfg, p, tags, t, cl', p')
    ensures ProtoInv(cfg, p', tags, keys)
  {
    TagsMove(cfg, p, tags, t, cl', p');
    GoneUpdate(p.clients, t, cl');
    QuietOutput(cfg, p, tags, keys, t, cl', p');
    QuietClients(cfg, p.clients, t, cl', p.clients[t := cl']);
  }

  lemma OneKeysSame(w: Chunk, w': Chunk)
    requires multiset(w.keys) == multiset(w'.keys)
    ensures ChunkKeys([w]) == ChunkKeys([w'])
  {
    OneKeys(w);
    OneKeys(w');
  }

  lemma HaveQuiet(cfg: Config, p: Proto, tags: Tags, t: Tid)
    requires Shape(cfg, p, tags) && t < |p.clients| && p.clients[t].Have? && ClientOk(cfg, t, p.clients[t])
    ensures Quietly(cfg, p, tags, t, LocalStep(p, t).clients[t], LocalStep(p, t))
  {
    var cl := p.clients[t];
    assert Held(cl)[0].Honest();
    OneKeysSame(cl.w, SortChunk(cl.w));
  }

  lemma MergedKeys(w: Chunk, w1: Chunk)
    requires w.sorted && w.Honest() && w1.Honest()
    ensures MergeChunks(w, w1).Honest() && ChunkKeys([MergeChunks(w, w1)]) == ChunkKeys([w, w1])
  {
    MergeChunksOk(w, w1);
    TwoKeys(w, w1);
    OneKeys(MergeChunks(w, w1));
  }

  lemma PutQuiet(cfg: Config, p: Proto, tags: Tags, t: Tid, m: Chunk)
    requires Shape(cfg, p, tags) && t < |p.clients| && m.sorted && m.Honest()
    requires !p.clients[t].Leave? && !p.clients[t].Gone? && ChunkKeys([m]) == ChunkKeys(Held(p.clients[t]))
    ensures Quietly(cfg, p, tags, t, Put(m), p.(clients := p.clients[t := Put(m)]))
  {}

  lemma BothQuiet(cfg: Config, p: Proto, tags: Tags, t: Tid)
    requires Shape(cfg, p, tags) && t < |p.clients| && p.clients[t].Both? && ClientOk(cfg, t, p.clients[t])
    ensures Quietly(cfg, p, tags, t, LocalStep(p, t).clients[t], LocalStep(p, t))
  {
    var cl := p.clients[t];
    assert Held(cl)[0].Honest() && Held(cl)[1].Honest();
    MergedKeys(cl.w, cl.w1);
    PutQuiet(cfg, p, tags, t, MergeChunks(cl.w, cl.w1));
  }

  lemma CheckQuiet(cfg: Config, p: Proto, tags: Tags, t: Tid)
    requires Shape(cfg, p, tags) && t < |p.clients| && ClientOk(cfg, t, p.clients[t])
    requires p.clients[t].Check1? || (p.clients[t].Check2? && p.exited != |p.clients| - 1)
    ensures Quietly(cfg, p, tags, t, LocalStep(p, t).clients[t], LocalStep(p, t))
  {
    assert Held(p.clients[t])[0].Honest();
  }

  lemma CounterQuiet(cfg: Config, p: Proto, tags: Tags, t: Tid)
    requires Shape(cfg, p, tags) && t < |p.clients| && (p.clients[t].Enter? || p.clients[t].Leave?)
    ensures Quietly(cfg, p, tags, t, LocalStep(p, t).clients[t], LocalStep(p, t))
  {}

  lemma LocalKeeps(cfg: Config, p: Proto, tags: Tags, keys: multiset<int>, t: Tid)
    requires ProtoInv(cfg, p, tags, keys) && t < |p.clients| && !AtQueue(p.clients[t])
    requires !(p.clients[t].Check2? && p.exited == |p.clients| - 1)
    ensures ProtoInv(cfg, LocalStep(p, t), tags, keys)
  {
    var p' := LocalStep(p, t);
    assert ClientOk(cfg, t, p.clients[t]);
    match p.clients[t] {
      case Have(_) => HaveQuiet(cfg, p, tags, t);
      case Both(_, _) => BothQuiet(cfg, p, tags, t);
      case Check1(_) => CheckQuiet(cfg, p, tags, t);
      case Check2(_) => CheckQuiet(cfg, p, tags, t);
      case Enter => CounterQuiet(cfg, p, tags, t);
      case Leave => CounterQuiet(cfg, p, tags, t);
      case _ => return;
    }
    QuietKeeps(cfg, p, tags, keys, t, p'.clients[t], p');
  }

  /** While a queue holds a chunk, some thread has not seen that queue empty since
      it last held something new, and so is still to come back to it. */
  lemma NotOverlooked(cfg: Config, p: Proto, tags: Tags, q: nat) returns (y: Tid)
    requires Shape(cfg, p, tags) && TagsOk(cfg, p, tags) && q < |p.queues| && p.queues[q] != []
    ensures y < |p.clients| && !Seen(cfg, y, p.clients[y], q)
  {
    assert TagOk(cfg, p.clients, tags[q][0], q);
    y := if tags[q][0].Some? then tags[q][0].value else 0;
  }

  lemma OthersEmpty(clients: seq<Client>, t: Tid)
    requires t < |clients| && forall u :: 0 <= u < |clients| && u != t ==> clients[u].Gone?
    ensures ClientKeys(clients[t := Gone]) == multiset{}
  {
    EmptyHandsKeys(clients[t := Gone]);
  }

  lemma OnlyHand(clients: seq<Client>, t: Tid)
    requires t < |clients| && ClientKeys(clients[t := Gone]) == multiset{}
    ensures ClientKeys(clients) == ChunkKeys(Held(clients[t]))
  {
    HandEmpties(clients, t, Gone);
    NothingPlus(ChunkKeys(Held(clients[t])));
  }

  lemma NothingPlus(x: multiset<int>)
    ensures multiset{} + x == x
  {}

  lemma AllOthersGone(clients: seq<Client>, t: Tid)
    requires t < |clients| && !clients[t].Gone? && GoneCount(clients) == |clients| - 1
    ensures forall u :: 0 <= u < |clients| && u != t ==> clients[u].Gone?
  {
    forall u | 0 <= u < |clients| && u != t ensures clients[u].Gone? { OthersGone(clients, t, u); }
  }

  /** When everyone has seen every queue empty, the queues are. */
  lemma NothingQueued(cfg: Config, p: Proto, tags: Tags, t: Tid)
    requires Shape(cfg, p, tags) && TagsOk(cfg, p, tags) && t < |p.clients| && p.clients[t].Check2?
    requires forall u :: 0 <= u < |p.clients| && u != t ==> p.clients[u].Gone?
    ensures forall q :: 0 <= q < |p.queues| ==> p.queues[q] == []
  {
    forall q | 0 <= q < |p.queues| ensures p.queues[q] == [] {
      if p.queues[q] != [] { var y := NotOverlooked(cfg, p, tags, q); }
    }
  }

  lemma StillRunning(p: Proto, t: Tid, keys: multiset<int>)
    requires t < |p.clients| && p.clients[t].Check2? && OutputOk(p, keys)
    ensures p.out == [] && QueueKeys(p.queues) + ClientKeys(p.clients) == keys
  {}

  lemma LastHandHasAll(p: Proto, t: Tid, keys: multiset<int>)
    requires t < |p.clients| && p.clients[t].Check2? && OutputOk(p, keys)
    requires (forall u :: 0 <= u < |p.clients| && u != t ==> p.clients[u].Gone?)
    requires (forall q :: 0 <= q < |p.queues| ==> p.queues[q] == [])
    ensures p.out == [] && multiset(p.clients[t].w.keys) == keys
  {
    StillRunning(p, t, keys);
    EmptyQueuesKeys(p.queues);
    OthersEmpty(p.clients, t);
    OnlyHand(p.clients, t);
    OneKeys(p.clients[t].w);
    NothingPlus(ClientKeys(p.clients));
  }

  /** At the check that succeeds every other thread is gone, so every queue is empty
      and the chunk in hand is all there is. */
  lemma LastThreadHasAll(cfg: Config, p: Proto, tags: Tags, keys: multiset<int>, t: Tid)
    requires ProtoInv(cfg, p, tags, keys) && t < |p.clients|
    requires p.clients[t].Check2? && p.exited == |p.clients| - 1
    ensures forall u :: 0 <= u < |p.clients| && u != t ==> p.clients[u].Gone?
    ensures forall q :: 0 <= q < |p.queues| ==> p.queues[q] == []
    ensures p.out == [] && multiset(p.clients[t].w.keys) == keys
  {
    AllOthersGone(p.clients, t);
    NothingQueued(cfg, p, tags, t);
    LastHandHasAll(p, t, keys);
  }

  lemma PublishKeeps(cfg: Config, p: Proto, tags: Tags, keys: multiset<int>, t: Tid)
    requires ProtoInv(cfg, p, tags, keys) && t < |p.clients|
    requires p.clients[t].Check2? && p.exited == |p.clients| - 1
    ensures ProtoInv(cfg, LocalStep(p, t), tags, keys)
  {
    var p' := LocalStep(p, t);
    LastThreadHasAll(cfg, p, tags, keys, t);
    assert ClientOk(cfg, t, p.clients[t]);
    assert Held(p.clients[t])[0].Honest();
    GoneUpdate(p.clients, t, Leave);
    TagsMove(cfg, p, tags, t, Leave, p');
  }

  /** After a miss the scan has seen one queue more, and after the last all. */
  lemma SeenAfterMiss(cfg: Config, t: Tid, cl: Client, q: nat)
    requires ConfigOk(cfg) && t < |cfg.node| && q < |cfg.nextQ|
    requires (cl.Scan1? || cl.Scan2?) && cl.pos < |Order(cfg, t)|
    requires Seen(cfg, t, Advance(cfg, t, cl, Dequeued(None)), q)
    ensures Seen(cfg, t, cl, q) || q == Order(cfg, t)[cl.pos]
  {
    var ord := Order(cfg, t);
    assert q in cfg.nextQ[cfg.node[t]] && q in ord;
    assert ord[..cl.pos + 1] == ord[..cl.pos] + [ord[cl.pos]];
    assert ord[..|ord|] == ord;
  }

  lemma MissClient(cfg: Config, t: Tid, cl: Client)
    requires ConfigOk(cfg) && t < |cfg.node| && (cl.Scan1? || cl.Scan2?) && ClientOk(cfg, t, cl)
    ensures ClientOk(cfg, t, Advance(cfg, t, cl, Dequeued(None)))
    ensures Held(Advance(cfg, t, cl, Dequeued(None))) == Held(cl)
  {
    var cl' := Advance(cfg, t, cl, Dequeued(None));
    if cl.Scan1? {
      assert Held(cl') == [];
    } else {
      assert Held(cl') == [cl.w] == Held(cl);
    }
    forall k | 0 <= k < |Held(cl')| ensures Held(cl')[k].Honest() { assert Held(cl)[k].Honest(); }
  }

  /** A dequeue that finds its queue empty. */
  lemma MissKeeps(cfg: Config, p: Proto, tags: Tags, keys: multiset<int>, t: Tid)
    requires ProtoInv(cfg, p, tags, keys) && CanStep(cfg, p, t)
    requires p.clients[t].Scan1? || p.clients[t].Scan2?
    requires p.clients[t].pos < |Order(cfg, t)| && p.queues[Order(cfg, t)[p.clients[t].pos]] == []
    ensures ProtoInv(cfg, ClientStep(cfg, p, t), tags, keys)
  {
    var cl, cl' := p.clients[t], Advance(cfg, t, p.clients[t], Dequeued(None));
    MissClient(cfg, t, cl);
    forall q | 0 <= q < |tags| && tags[q] != [] && Seen(cfg, t, cl', q) ensures Seen(cfg, t, cl, q) {
      SeenAfterMiss(cfg, t, cl, q);
    }
    QuietKeeps(cfg, p, tags, keys, t, cl', ClientStep(cfg, p, t));
  }

  lemma DequeuedKeys(c: Contents, q: nat)
    requires q < |c| && c[q] != []
    ensures QueueKeys(c[q := c[q][1..]]) + multiset(c[q][0].keys) == QueueKeys(c)
  {
    var x, rest := multiset(c[q][0].keys), ChunkKeys(c[q][1..]);
    var c' := c[q := c[q][1..]];
    QueueKeysUpdate(c, q, c[q][1..]);
    PopKeys(c[q]);
    assert QueueKeys(c') + (x + rest) == (QueueKeys(c') + x) + rest;
    Cancel(QueueKeys(c') + x, QueueKeys(c), rest);
  }

  lemma EnqueuedKeys(c: Contents, q: nat, w: Chunk)
    requires q < |c|
    ensures QueueKeys(c[q := c[q] + [w]]) == QueueKeys(c) + multiset(w.keys)
  {
    var x, old_ := multiset(w.keys), ChunkKeys(c[q]);
    QueueKeysUpdate(c, q, c[q] + [w]);
    PushKeys(c[q], w);
    assert QueueKeys(c) + (old_ + x) == (QueueKeys(c) + x) + old_;
    Cancel(QueueKeys(c[q := c[q] + [w]]), QueueKeys(c) + x, old_);
  }

  lemma HandGains(clients: seq<Client>, t: Tid, cl': Client, x: multiset<int>)
    requires t < |clients| && ChunkKeys(Held(cl')) == ChunkKeys(Held(clients[t])) + x
    ensures ClientKeys(clients[t := cl']) == ClientKeys(clients) + x
  {
    var h := ChunkKeys(Held(clients[t]));
    ClientKeysUpdate(clients, t, cl');
    assert ClientKeys(clients) + (h + x) == (ClientKeys(clients) + x) + h;
    Cancel(ClientKeys(clients[t := cl']), ClientKeys(clients) + x, h);
  }

  lemma HandEmpties(clients: seq<Client>, t: Tid, cl': Client)
    requires t < |clients| && Held(cl') == []
    ensures ClientKeys(clients[t := cl']) + ChunkKeys(Held(clients[t])) == ClientKeys(clients)
  {
    ClientKeysUpdate(clients, t, cl');
    assert ClientKeys(clients) + ChunkKeys([]) == ClientKeys(clients);
  }

  /** A dequeue that takes the head of its queue. */
  lemma HitShape(cfg: Config, p: Proto, tags: Tags, t: Tid, q: nat, cl': Client, p': Proto)
    requires Shape(cfg, p, tags) && TagsOk(cfg, p, tags) && t < |p.clients|
    requires q < |p.queues| && p.queues[q] != [] && (cl'.Have? || cl'.Both?)
    requires p' == p.(queues := p.queues[q := p.queues[q][1..]], clients := p.clients[t := cl'])
    ensures Shape(cfg, p', tags[q := tags[q][1..]]) && TagsOk(cfg, p', tags[q := tags[q][1..]])
  {
    var tags' := tags[q := tags[q][1..]];
    forall r, k | 0 <= r < |tags'| && 0 <= k < |tags'[r]| ensures TagOk(cfg, p'.clients, tags'[r][k], r) {
      assert TagOk(cfg, p.clients, tags[r][if r == q then k + 1 else k], r);
    }
  }

  lemma HitHonest(c: Contents, q: nat)
    requires AllHonest(c) && q < |c| && c[q] != []
    ensures AllHonest(c[q := c[q][1..]]) && c[q][0].Honest()
  {
    var c': Contents := c[q := c[q][1..]];
    forall r, k | 0 <= r < |c'| && 0 <= k < |c'[r]| ensures c'[r][k].Honest() {
      assert c[r][if r == q then k + 1 else k].Honest();
    }
  }

  lemma HitClient(cfg: Config, t: Tid, cl: Client, x: Chunk)
    requires ConfigOk(cfg) && t < |cfg.node| && (cl.Scan1? || cl.Scan2?) && ClientOk(cfg, t, cl) && x.Honest()
    ensures var cl' := Advance(cfg, t, cl, Dequeued(Some(x)));
            && (cl'.Have? || cl'.Both?) && ClientOk(cfg, t, cl') && Held(cl') != []
            && ChunkKeys(Held(cl')) == ChunkKeys(Held(cl)) + multiset(x.keys)
  {
    if cl.Scan1? {
      OneKeys(x);
    } else {
      assert Held(cl)[0].Honest();
      TwoKeys(cl.w, x);
      OneKeys(cl.w);
    }
  }

  /** What a dequeue that finds an item does to the rest of the state. */
  lemma HitOutput(p: Proto, t: Tid, q: nat, cl': Client, keys: multiset<int>)
    requires t < |p.clients| && q < |p.queues| && p.queues[q] != [] && OutputOk(p, keys) && Held(cl') != []
    requires ChunkKeys(Held(cl')) == ChunkKeys(Held(p.clients[t])) + multiset(p.queues[q][0].keys)
    requires p.out == []
    ensures OutputOk(p.(queues := p.queues[q := p.queues[q][1..]], clients := p.clients[t := cl']), keys)
  {
    var x := multiset(p.queues[q][0].keys);
    var c': Contents := p.queues[q := p.queues[q][1..]];
    DequeuedKeys(p.queues, q);
    HandGains(p.clients, t, cl', x);
    MoveBack(QueueKeys(c'), ClientKeys(p.clients), QueueKeys(p.queues), x);
    assert Held(p.clients[t := cl'][t]) != [];
  }

  lemma MoveBack(q': multiset<int>, c: multiset<int>, q: multiset<int>, x: multiset<int>)
    requires q' + x == q
    ensures q' + (c + x) == q + c
  {}

  lemma HitKeeps(cfg: Config, p: Proto, tags: Tags, keys: multiset<int>, t: Tid) returns (tags': Tags)
    requires ProtoInv(cfg, p, tags, keys) && CanStep(cfg, p, t)
    requires p.clients[t].Scan1? || p.clients[t].Scan2?
    requires p.clients[t].pos < |Order(cfg, t)| && p.queues[Order(cfg, t)[p.clients[t].pos]] != []
    ensures ProtoInv(cfg, ClientStep(cfg, p, t), tags', keys)
  {
    var q, cl := Order(cfg, t)[p.clients[t].pos], p.clients[t];
    var x := p.queues[q][0];
    var cl' := Advance(cfg, t, cl, Dequeued(Some(x)));
    tags' := tags[q := tags[q][1..]];
    HitHonest(p.queues, q);
    HitClient(cfg, t, cl, x);
    HitStep(cfg, p, t, q, cl');
    HitShape(cfg, p, tags, t, q, cl', ClientStep(cfg, p, t));
    NotFinished(p, q, keys);
    HitOutput(p, t, q, cl', keys);
    GoneUpdate(p.clients, t, cl');
    QuietClients(cfg, p.clients, t, cl', p.clients[t := cl']);
  }

  lemma NotFinished(p: Proto, q: nat, keys: multiset<int>)
    requires OutputOk(p, keys) && q < |p.queues| && p.queues[q] != []
    ensures p.out == []
  {}

  lemma HitStep(cfg: Config, p: Proto, t: Tid, q: nat, cl': Client)
    requires CanStep(cfg, p, t) && (p.clients[t].Scan1? || p.clients[t].Scan2?)
    requires p.clients[t].pos < |Order(cfg, t)| && q == Order(cfg, t)[p.clients[t].pos] && p.queues[q] != []
    requires cl' == Advance(cfg, t, p.clients[t], Dequeued(Some(p.queues[q][0])))
    ensures ClientStep(cfg, p, t) == p.(queues := p.queues[q := p.queues[q][1..]], clients := p.clients[t := cl'])
  {}

  /** Putting a chunk back tags it with the thread, which starts a new scan. */
  lemma PutShape(cfg: Config, p: Proto, tags: Tags, t: Tid, q: nat, w: Chunk, p': Proto)
    requires Shape(cfg, p, tags) && TagsOk(cfg, p, tags) && t < |p.clients| && q < |p.queues|
    requires p' == p.(queues := p.queues[q := p.queues[q] + [w]], clients := p.clients[t := Scan1(0)])
    ensures Shape(cfg, p', tags[q := tags[q] + [Some(t)]]) && TagsOk(cfg, p', tags[q := tags[q] + [Some(t)]])
  {
    var tags' := tags[q := tags[q] + [Some(t)]];
    forall r, k | 0 <= r < |tags'| && 0 <= k < |tags'[r]| ensures TagOk(cfg, p'.clients, tags'[r][k], r) {
      if k < |tags[r]| { assert TagOk(cfg, p.clients, tags[r][k], r); }
    }
  }

  lemma PutHonest(c: Contents, q: nat, w: Chunk)
    requires AllHonest(c) && q < |c| && w.Honest()
    ensures AllHonest(c[q := c[q] + [w]])
  {
    var c': Contents := c[q := c[q] + [w]];
    forall r, k | 0 <= r < |c'| && 0 <= k < |c'[r]| ensures c'[r][k].Honest() {
      if k < |c[r]| { assert c[r][k].Honest(); }
    }
  }

  lemma MoveAcross(q: multiset<int>, c: multiset<int>, c': multiset<int>, x: multiset<int>)
    requires c' + x == c
    ensures (q + x) + c' == q + c
  {}

  lemma PutKeysKept(queues: Contents, clients: seq<Client>, t: Tid, q: nat, w: Chunk)
    requires t < |clients| && clients[t] == Put(w) && q < |queues|
    ensures QueueKeys(queues[q := queues[q] + [w]]) + ClientKeys(clients[t := Scan1(0)])
         == QueueKeys(queues) + ClientKeys(clients)
  {
    var x := multiset(w.keys);
    EnqueuedKeys(queues, q, w);
    OneKeys(w);
    HandGives(clients, t, w, x);
    MoveAcross(QueueKeys(queues), ClientKeys(clients), ClientKeys(clients[t := Scan1(0)]), x);
  }

  lemma HandGives(clients: seq<Client>, t: Tid, w: Chunk, x: multiset<int>)
    requires t < |clients| && clients[t] == Put(w) && x == ChunkKeys([w])
    ensures ClientKeys(clients[t := Scan1(0)]) + x == ClientKeys(clients)
  {
    HandEmpties(clients, t, Scan1(0));
    assert Held(clients[t]) == [w];
  }

  lemma PutOutput(cfg: Config, p: Proto, t: Tid, q: nat, w: Chunk, keys: multiset<int>)
    requires t < |p.clients| && p.clients[t] == Put(w) && q < |p.queues| && OutputOk(p, keys)
    ensures OutputOk(p.(queues := p.queues[q := p.queues[q] + [w]], clients := p.clients[t := Scan1(0)]), keys)
  {
    PutKeysKept(p.queues, p.clients, t, q, w);
    assert p.queues[q := p.queues[q] + [w]][q] != [];
  }

  lemma PutKeeps(cfg: Config, p: Proto, tags: Tags, keys: multiset<int>, t: Tid) returns (tags': Tags)
    requires ProtoInv(cfg, p, tags, keys) && CanStep(cfg, p, t) && p.clients[t].Put?
    ensures ProtoInv(cfg, ClientStep(cfg, p, t), tags', keys)
  {
    var q, w, p' := cfg.node[t], p.clients[t].w, ClientStep(cfg, p, t);
    tags' := tags[q := tags[q] + [Some(t)]];
    assert Held(p.clients[t])[0].Honest();
    PutHonest(p.queues, q, w);
    PutShape(cfg, p, tags, t, q, w, p');
    PutOutput(cfg, p, t, q, w, keys);
    GoneUpdate(p.clients, t, Scan1(0));
    assert ClientOk(cfg, t, Scan1(0)) by { assert |Order(cfg, t)| > 0; }
    QuietClients(cfg, p.clients, t, Scan1(0), p.clients[t := Scan1(0)]);
  }

  lemma OrderInRange(cfg: Config, t: Tid, pos: nat)
    requires ConfigOk(cfg) && t < |cfg.node| && pos < |Order(cfg, t)|
    ensures Order(cfg, t)[pos] < |cfg.nextQ|
  {
    var steal := cfg.nextQ[cfg.node[t]];
    assert pos > 0 ==> Order(cfg, t)[pos] == steal[pos - 1] && steal[pos - 1] in steal;
  }

  /** A client after it has got an item. */
  function WithItem(cl: Client, item: Chunk): Client {
    if cl.Scan2? then Both(cl.w, item) else Have(item)
  }

  /** A scan starts with the thread's own queue: it takes the head of that if there is one. */
  lemma OwnQueueFirst(cfg: Config, p: Proto, t: Tid)
    requires ConfigOk(cfg) && |p.clients| == |cfg.node| && |p.queues| == |cfg.nextQ| && t < |p.clients|
    requires (p.clients[t].Scan1? || p.clients[t].Scan2?) && p.clients[t].pos == 0
    ensures CanStep(cfg, p, t)
    ensures var q, p' := cfg.node[t], ClientStep(cfg, p, t);
            if p.queues[q] != []
            then p' == p.(queues := p.queues[q := p.queues[q][1..]],
                          clients := p.clients[t := WithItem(p.clients[t], p.queues[q][0])])
            else p' == p.(clients := p.clients[t := p.clients[t].(pos := 1)])
  {
    assert cfg.node[t] in cfg.nextQ[cfg.node[t]];
  }

  /** Then it goes through the stealing order, and after that it is over. */
  lemma ThenTheOthers(cfg: Config, p: Proto, t: Tid, k: nat)
    requires ConfigOk(cfg) && |p.clients| == |cfg.node| && |p.queues| == |cfg.nextQ| && t < |p.clients|
    requires (p.clients[t].Scan1? || p.clients[t].Scan2?) && p.clients[t].pos == k + 1
    requires k < |cfg.nextQ[cfg.node[t]]|
    ensures CanStep(cfg, p, t) && cfg.nextQ[cfg.node[t]][k] < |p.queues|
    ensures var q, p', cl := cfg.nextQ[cfg.node[t]][k], ClientStep(cfg, p, t), p.clients[t];
            if p.queues[q] != []
            then p' == p.(queues := p.queues[q := p.queues[q][1..]],
                          clients := p.clients[t := WithItem(cl, p.queues[q][0])])
            else p' == p.(clients := p.clients[t := if k + 1 < |cfg.nextQ[cfg.node[t]]| then cl.(pos := k + 2)
                                                    else if cl.Scan1? then Leave else Check1(cl.w)])
  {
    assert cfg.nextQ[cfg.node[t]][k] in cfg.nextQ[cfg.node[t]];
  }

  lemma ScanKeeps(cfg: Config, p: Proto, tags: Tags, keys: multiset<int>, t: Tid) returns (tags': Tags)
    requires ProtoInv(cfg, p, tags, keys) && t < |p.clients| && (p.clients[t].Scan1? || p.clients[t].Scan2?)
    ensures CanStep(cfg, p, t) && ProtoInv(cfg, ClientStep(cfg, p, t), tags', keys)
  {
    var cl := p.clients[t];
    tags' := tags;
    assert ClientOk(cfg, t, cl);
    OrderInRange(cfg, t, cl.pos);
    if p.queues[Order(cfg, t)[cl.pos]] == [] {
      MissKeeps(cfg, p, tags, keys, t);
    } else {
      tags' := HitKeeps(cfg, p, tags, keys, t);
    }
  }

  /** Every step of every thread keeps the protocol invariant. */
  lemma StepKeeps(cfg: Config, p: Proto, tags: Tags, keys: multiset<int>, t: Tid) returns (tags': Tags)
    requires ProtoInv(cfg, p, tags, keys) && t < |p.clients|
    ensures CanStep(cfg, p, t) && ProtoInv(cfg, ClientStep(cfg, p, t), tags', keys)
  {
    var cl := p.clients[t];
    tags' := tags;
    if cl.Scan1? || cl.Scan2? {
      tags' := ScanKeeps(cfg, p, tags, keys, t);
    } else if cl.Put? {
      tags' := PutKeeps(cfg, p, tags, keys, t);
    } else if cl.Check2? && p.exited == |p.clients| - 1 {
      PublishKeeps(cfg, p, tags, keys, t);
    } else {
      LocalKeeps(cfg, p, tags, keys, t);
    }
  }

  // ------------------------------------------------------------- main results

  /** Unsorted chunks in the queues, at least one, and every thread still to enter. */
  ghost predicate Initial(cfg: Config, p: Proto) {
    && ConfigOk(cfg) && |p.clients| == |cfg.node| && |p.queues| == |cfg.nextQ|
    && (forall t :: 0 <= t < |p.clients| ==> p.clients[t] == Enter)
    && (forall q, k :: 0 <= q < |p.queues| && 0 <= k < |p.queues[q]| ==> !p.queues[q][k].sorted)
    && (exists q :: 0 <= q < |p.queues| && p.queues[q] != [])
    && p.entered == p.exited == 0 && p.out == []
  }

  lemma {:induction false} NoneGone(clients: seq<Client>)
    requires forall t :: 0 <= t < |clients| ==> clients[t] == Enter
    ensures GoneCount(clients) == 0
  {
    if clients != [] { NoneGone(clients[..|clients| - 1]); }
  }

  lemma InitialOk(cfg: Config, p: Proto) returns (tags: Tags)
    requires Initial(cfg, p)
    ensures ProtoInv(cfg, p, tags, QueueKeys(p.queues))
  {
    tags := seq(|p.queues|, q requires 0 <= q < |p.queues| => seq(|p.queues[q]|, _ => None));
    EmptyHandsKeys(p.clients);
    NoneGone(p.clients);
    forall q, k | 0 <= q < |tags| && 0 <= k < |tags[q]| ensures TagOk(cfg, p.clients, tags[q][k], q) {}
  }

  /** When every thread has finished, exactly one of them has published. */
  lemma ExactlyOnePublishes(cfg: Config, p: Proto, tags: Tags, keys: multiset<int>)
    requires ProtoInv(cfg, p, tags, keys)
    requires forall t :: 0 <= t < |p.clients| ==> p.clients[t].Gone?
    ensures |p.out| == 1
  {
    if p.out == [] {
      forall q | 0 <= q < |p.queues| ensures p.queues[q] == [] {
        if p.queues[q] != [] { var y := NotOverlooked(cfg, p, tags, q); }
      }
    }
  }
}
