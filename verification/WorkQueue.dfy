/** The spin-locked linked queues, one shared access per step. Threads interleave
    freely; the machine is shown to refine one atomic FIFO per queue. */
module WorkQueue {
  import opened Chunks

  type Tid = nat
  type NodeId = nat

  /** A list node. The next field of a new node is whatever malloc left there. */
  datatype Node = Node(data: Chunk, next: NodeId)

  /** The lock word, annotated with the thread whose CAS set it. */
  datatype Queue = Queue(lock: Option<Tid>, head: NodeId, tail: NodeId, size: int)

  datatype Request = Enqueue(q: nat, item: Chunk) | Dequeue(q: nat) | SizeAll
  datatype Response = Enqueued | Dequeued(item: Option<Chunk>) | Size(total: int)

  /** Where a thread stands inside an operation. */
  datatype Pc =
    | Idle
    | EnqLock(q: nat, node: NodeId, item: Chunk)
    | EnqLink(q: nat, node: NodeId, item: Chunk)
    | EnqTail(q: nat, node: NodeId, item: Chunk)
    | EnqSize(q: nat, node: NodeId, item: Chunk)
    | EnqUnlock(q: nat)
    | DeqPeek(q: nat)
    | DeqLock(q: nat)
    | DeqCheck(q: nat)
    | DeqEmpty(q: nat)
    | DeqHead(q: nat)
    | DeqNext(q: nat, node: NodeId)
    | DeqData(q: nat, node: NodeId, newHead: NodeId)
    | DeqMove(q: nat, node: NodeId, newHead: NodeId, data: Chunk)
    | DeqSize(q: nat, node: NodeId, data: Chunk)
    | DeqUnlock(q: nat, node: NodeId, data: Chunk)
    | DeqFree(node: NodeId, data: Chunk)
    | SumLock(i: nat, sum: int)
    | SumRead(i: nat, sum: int)
    | SumUnlock(i: nat, sum: int)
    | Done(resp: Response)

  datatype State = State(queues: seq<Queue>, heap: map<NodeId, Node>, threads: seq<Pc>)

  // ------------------------------------------------------------------ steps

  /** A thread without an operation begins one; an enqueue allocates its node. */
  ghost predicate CanStart(s: State, t: Tid, r: Request, node: NodeId) {
    && t < |s.threads| && s.threads[t] == Idle && |s.queues| > 0
    && (r.Enqueue? ==> r.q < |s.queues| && node !in s.heap)
    && (r.Dequeue? ==> r.q < |s.queues|)
  }

  function Start(s: State, t: Tid, r: Request, node: NodeId, garbage: NodeId): State
    requires t < |s.threads|
  {
    match r
    case Enqueue(q, item) =>
      s.(heap := s.heap[node := Node(item, garbage)], threads := s.threads[t := EnqLock(q, node, item)])
    case Dequeue(q) => s.(threads := s.threads[t := DeqPeek(q)])
    case SizeAll => s.(threads := s.threads[t := SumLock(0, 0)])
  }

  function Finish(s: State, t: Tid): State
    requires t < |s.threads|
  {
    s.(threads := s.threads[t := Idle])
  }

  predicate Working(s: State, t: Tid) {
    t < |s.threads| && s.threads[t] != Idle && !s.threads[t].Done?
  }

  function Goto(s: State, t: Tid, pc: Pc): State
    requires t < |s.threads|
  {
    s.(threads := s.threads[t := pc])
  }

  function SetQueue(s: State, t: Tid, q: nat, qu: Queue, pc: Pc): State
    requires t < |s.threads| && q < |s.queues|
  {
    s.(queues := s.queues[q := qu], threads := s.threads[t := pc])
  }

  /** The compare-and-swap of the lock word; a failed one just tries again. */
  function TryLock(s: State, t: Tid, q: nat, pc: Pc): State
    requires t < |s.threads| && q < |s.queues|
  {
    if s.queues[q].lock == None then SetQueue(s, t, q, s.queues[q].(lock := Some(t)), pc) else s
  }

  function Unlock(s: State, t: Tid, q: nat, pc: Pc): State
    requires t < |s.threads| && q < |s.queues|
  {
    SetQueue(s, t, q, s.queues[q].(lock := None), pc)
  }

  /** What the thread's next access needs to be defined: queues in range and every
      node it follows allocated. */
  predicate Defined(s: State, t: Tid) {
    && t < |s.threads|
    && match s.threads[t]
       case EnqLock(q, _, _) => q < |s.queues|
       case EnqLink(q, _, _) => q < |s.queues| && s.queues[q].tail in s.heap
       case EnqTail(q, _, _) => q < |s.queues|
       case EnqSize(q, _, _) => q < |s.queues|
       case EnqUnlock(q) => q < |s.queues|
       case DeqPeek(q) => q < |s.queues|
       case DeqLock(q) => q < |s.queues|
       case DeqCheck(q) => q < |s.queues|
       case DeqEmpty(q) => q < |s.queues|
       case DeqHead(q) => q < |s.queues|
       case DeqNext(q, node) => q < |s.queues| && node in s.heap
       case DeqData(q, _, newHead) => q < |s.queues| && newHead in s.heap
       case DeqMove(q, _, _, _) => q < |s.queues|
       case DeqSize(q, _, _) => q < |s.queues|
       case DeqUnlock(q, _, _) => q < |s.queues|
       case SumLock(i, _) => i < |s.queues|
       case SumRead(i, _) => i < |s.queues|
       case SumUnlock(i, _) => i < |s.queues|
       case _ => true
  }

  /** One shared access by thread t. */
  function Step(s: State, t: Tid): State
    requires Working(s, t) && Defined(s, t)
  {
    match s.threads[t]
    case EnqLock(q, node, item) => TryLock(s, t, q, EnqLink(q, node, item))
    case EnqLink(q, node, item) =>
      var tail := s.queues[q].tail;
      Goto(s.(heap := s.heap[tail := s.heap[tail].(next := node)]), t, EnqTail(q, node, item))
    case EnqTail(q, node, item) => SetQueue(s, t, q, s.queues[q].(tail := node), EnqSize(q, node, item))
    case EnqSize(q, node, item) => SetQueue(s, t, q, s.queues[q].(size := s.queues[q].size + 1), EnqUnlock(q))
    case EnqUnlock(q) => Unlock(s, t, q, Done(Enqueued))
    case DeqPeek(q) => Goto(s, t, if s.queues[q].size == 0 then Done(Dequeued(None)) else DeqLock(q))
    case DeqLock(q) => TryLock(s, t, q, DeqCheck(q))
    case DeqCheck(q) => Goto(s, t, if s.queues[q].size == 0 then DeqEmpty(q) else DeqHead(q))
    case DeqEmpty(q) => Unlock(s, t, q, Done(Dequeued(None)))
    case DeqHead(q) => Goto(s, t, DeqNext(q, s.queues[q].head))
    case DeqNext(q, node) => Goto(s, t, DeqData(q, node, s.heap[node].next))
    case DeqData(q, node, newHead) => Goto(s, t, DeqMove(q, node, newHead, s.heap[newHead].data))
    case DeqMove(q, node, newHead, data) => SetQueue(s, t, q, s.queues[q].(head := newHead), DeqSize(q, node, data))
    case DeqSize(q, node, data) =>
      SetQueue(s, t, q, s.queues[q].(size := s.queues[q].size - 1), DeqUnlock(q, node, data))
    case DeqUnlock(q, node, data) => Unlock(s, t, q, DeqFree(node, data))
    case DeqFree(node, data) => Goto(s.(heap := s.heap - {node}), t, Done(Dequeued(Some(data))))
    case SumLock(i, sum) => TryLock(s, t, i, SumRead(i, sum))
    case SumRead(i, sum) =>
      var total := sum + s.queues[i].size;
      Goto(s, t, if i + 1 < |s.queues| then SumLock(i + 1, total) else SumUnlock(0, total))
    case SumUnlock(i, sum) =>
      Unlock(s, t, i, if i + 1 < |s.queues| then SumUnlock(i + 1, sum) else Done(Size(sum)))
    case _ => s
  }

  /** A dequeue that sees an empty queue is over without having taken the lock. */
  lemma EmptyIsNotLocked(s: State, t: Tid, q: nat)
    requires t < |s.threads| && q < |s.queues| && s.threads[t] == DeqPeek(q)
    ensures Working(s, t) && Defined(s, t)
    ensures s.queues[q].size == 0 ==> Step(s, t) == s.(threads := s.threads[t := Done(Dequeued(None))])
    ensures s.queues[q].size != 0 ==> Step(s, t) == s.(threads := s.threads[t := DeqLock(q)])
  {}

  /** Every operation starts with its first access: a new node in hand, the look at the size, the first lock. */
  lemma OperationsStart(s: State, t: Tid, r: Request, node: NodeId, garbage: NodeId)
    requires t < |s.threads| && CanStart(s, t, r, node)
    ensures r.Dequeue? ==> Start(s, t, r, node, garbage) == s.(threads := s.threads[t := DeqPeek(r.q)])
    ensures r.Enqueue? ==> Start(s, t, r, node, garbage).threads == s.threads[t := EnqLock(r.q, node, r.item)]
                           && Start(s, t, r, node, garbage).heap == s.heap[node := Node(r.item, garbage)]
                           && Start(s, t, r, node, garbage).queues == s.queues
  {}

  // ------------------------------------------------------ the atomic machine

  type Contents = seq<seq<Chunk>>

  function TotalSize(c: Contents): (n: nat) {
    if c == [] then 0 else TotalSize(c[..|c| - 1]) + |c[|c| - 1]|
  }

  /** What one operation does when it happens at one instant. */
  function Apply(c: Contents, r: Request): (res: (Contents, Response))
    requires r.SizeAll? || r.q < |c|
  {
    match r
    case Enqueue(q, item) => (c[q := c[q] + [item]], Enqueued)
    case Dequeue(q) =>
      if c[q] == [] then (c, Dequeued(None)) else (c[q := c[q][1..]], Dequeued(Some(c[q][0])))
    case SizeAll => (c, Size(TotalSize(c)))
  }

  /** The request a thread is serving. */
  function Serving(pc: Pc): Option<Request> {
    match pc
    case EnqLock(q, _, item) => Some(Enqueue(q, item))
    case EnqLink(q, _, item) => Some(Enqueue(q, item))
    case EnqTail(q, _, item) => Some(Enqueue(q, item))
    case EnqSize(q, _, item) => Some(Enqueue(q, item))
    case DeqPeek(q) => Some(Dequeue(q))
    case DeqLock(q) => Some(Dequeue(q))
    case DeqCheck(q) => Some(Dequeue(q))
    case DeqHead(q) => Some(Dequeue(q))
    case DeqNext(q, _) => Some(Dequeue(q))
    case DeqData(q, _, _) => Some(Dequeue(q))
    case DeqMove(q, _, _, _) => Some(Dequeue(q))
    case DeqSize(q, _, _) => Some(Dequeue(q))
    case SumLock(_, _) => Some(SizeAll)
    case SumRead(_, _) => Some(SizeAll)
    case _ => None
  }

  /** The response a thread is bound to return, once its operation has taken effect. */
  function Promise(pc: Pc): Option<Response> {
    match pc
    case EnqUnlock(_) => Some(Enqueued)
    case DeqEmpty(_) => Some(Dequeued(None))
    case DeqUnlock(_, _, data) => Some(Dequeued(Some(data)))
    case DeqFree(_, data) => Some(Dequeued(Some(data)))
    case SumUnlock(_, sum) => Some(Size(sum))
    case Done(resp) => Some(resp)
    case _ => None
  }

  /** The step by which an operation takes effect is the one that fixes its response. */
  predicate TakesEffect(s: State, t: Tid)
    requires Working(s, t) && Defined(s, t)
  {
    Promise(s.threads[t]) == None && Promise(Step(s, t).threads[t]) != None
  }

  // ---------------------------------------------------------------- invariant

  /** Thread position pc holds the lock of queue q. */
  predicate Holds(pc: Pc, q: nat) {
    match pc
    case EnqLink(p, _, _) => p == q
    case EnqTail(p, _, _) => p == q
    case EnqSize(p, _, _) => p == q
    case EnqUnlock(p) => p == q
    case DeqCheck(p) => p == q
    case DeqEmpty(p) => p == q
    case DeqHead(p) => p == q
    case DeqNext(p, _) => p == q
    case DeqData(p, _, _) => p == q
    case DeqMove(p, _, _, _) => p == q
    case DeqSize(p, _, _) => p == q
    case DeqUnlock(p, _, _) => p == q
    case SumLock(i, _) => q < i
    case SumRead(i, _) => q <= i
    case SumUnlock(i, _) => i <= q
    case _ => false
  }

  /** Mutual exclusion: the lock word names the one thread inside. */
  ghost predicate LocksOk(s: State) {
    && (forall q :: 0 <= q < |s.queues| && s.queues[q].lock.Some? ==> s.queues[q].lock.value < |s.threads|)
    && (forall t, q :: 0 <= t < |s.threads| && 0 <= q < |s.queues| ==>
          (Holds(s.threads[t], q) <==> s.queues[q].lock == Some(t)))
  }

  /** Who may touch a node: the holder of a queue's lock, or one thread alone. */
  datatype Place = InQueue(q: nat) | Private(t: Tid)

  /** History variables: the list of each queue and the place of each node. */
  datatype Witness = Witness(chains: seq<seq<NodeId>>, place: map<NodeId, Place>)

  function Holder(s: State, q: nat): Pc
    requires q < |s.queues|
  {
    if s.queues[q].lock.Some? && s.queues[q].lock.value < |s.threads|
    then s.threads[s.queues[q].lock.value] else Idle
  }

  /** What the list holds while the holder is between moving a pointer and changing
      the size. */
  function Listed(pc: Pc, items: seq<Chunk>): seq<Chunk> {
    if pc.EnqSize? then items + [pc.item]
    else if pc.DeqSize? && items != [] then items[1..]
    else items
  }

  ghost predicate NoDup(ch: seq<NodeId>) {
    forall i, j :: 0 <= i < j < |ch| ==> ch[i] != ch[j]
  }

  /** The nodes `ch` form a list after a dummy that stores exactly `items`. Nothing
      is said of the last node's next field. */
  ghost predicate Linked(heap: map<NodeId, Node>, ch: seq<NodeId>, items: seq<Chunk>) {
    && |ch| == |items| + 1
    && (forall i :: 0 <= i < |ch| ==> ch[i] in heap)
    && (forall i :: 0 <= i < |items| ==> heap[ch[i]].next == ch[i + 1])
    && (forall i :: 0 <= i < |items| ==> heap[ch[i + 1]].data == items[i])
  }

  ghost predicate Owned(place: map<NodeId, Place>, ch: seq<NodeId>, q: nat) {
    forall i :: 0 <= i < |ch| ==> ch[i] in place && place[ch[i]] == InQueue(q)
  }

  /** What the lock holder has read stays true while it holds the lock. */
  ghost predicate HolderOk(pc: Pc, heap: map<NodeId, Node>, qu: Queue, ch: seq<NodeId>, items: seq<Chunk>) {
    match pc
    case EnqTail(_, node, _) => qu.tail in heap && heap[qu.tail].next == node
    case DeqHead(_) => items != []
    case DeqNext(_, node) => items != [] && node == qu.head
    case DeqData(_, node, newHead) => items != [] && node == qu.head && |ch| > 1 && newHead == ch[1]
    case DeqMove(_, node, newHead, data) =>
      items != [] && node == qu.head && |ch| > 1 && newHead == ch[1] && data == items[0]
    case DeqSize(_, _, data) => items != [] && data == items[0]
    case _ => true
  }

  ghost predicate QueueOk(s: State, w: Witness, c: Contents, q: nat)
    requires q < |s.queues| && |w.chains| == |c| == |s.queues|
  {
    var qu, ch, pc := s.queues[q], w.chains[q], Holder(s, q);
    && Linked(s.heap, ch, Listed(pc, c[q])) && NoDup(ch) && Owned(w.place, ch, q)
    && ch[0] == qu.head && ch[|ch| - 1] == qu.tail
    && qu.size == |c[q]|
    && HolderOk(pc, s.heap, qu, ch, c[q])
  }

  /** The node a thread keeps to itself, and what it must hold. */
  ghost predicate PrivateOk(pc: Pc, t: Tid, heap: map<NodeId, Node>, place: map<NodeId, Place>) {
    match pc
    case EnqLock(_, node, item) => node in heap && node in place && place[node] == Private(t) && heap[node].data == item
    case EnqLink(_, node, item) => node in heap && node in place && place[node] == Private(t) && heap[node].data == item
    case EnqTail(_, node, item) => node in heap && node in place && place[node] == Private(t) && heap[node].data == item
    case DeqSize(_, node, _) => node in heap && node in place && place[node] == Private(t)
    case DeqUnlock(_, node, _) => node in heap && node in place && place[node] == Private(t)
    case DeqFree(node, _) => node in heap && node in place && place[node] == Private(t)
    case _ => true
  }

  ghost predicate ThreadOk(s: State, w: Witness, c: Contents, t: Tid)
    requires t < |s.threads| && |c| == |s.queues| && w.place.Keys == s.heap.Keys
  {
    var pc := s.threads[t];
    && PrivateOk(pc, t, s.heap, w.place)
    && (pc.Done? || pc.Idle? || pc.DeqFree? || pc.SumLock? || pc.SumRead? || pc.SumUnlock? || pc.q < |c|)
    && (pc.SumLock? || pc.SumRead? ==> pc.i < |c| && pc.sum == TotalSize(c[..pc.i]))
    && (pc.SumUnlock? ==> pc.i < |c|)
  }

  ghost predicate Inv(s: State, w: Witness, c: Contents) {
    && |w.chains| == |c| == |s.queues| > 0
    && w.place.Keys == s.heap.Keys
    && LocksOk(s)
    && (forall q :: 0 <= q < |c| ==> QueueOk(s, w, c, q))
    && (forall t :: 0 <= t < |s.threads| ==> ThreadOk(s, w, c, t))
  }

  // ------------------------------------------------------------------- frames

  /** A position that is not in the middle of changing a list. */
  predicate Neutral(pc: Pc) {
    !(pc.EnqTail? || pc.EnqSize? || pc.DeqHead? || pc.DeqNext? || pc.DeqData? || pc.DeqMove? || pc.DeqSize?)
  }

  ghost predicate SameShape(s: State, w: Witness, c: Contents, s': State, w': Witness, c': Contents) {
    && |w.chains| == |c| == |s.queues| == |w'.chains| == |c'| == |s'.queues| > 0
    && |s'.threads| == |s.threads|
    && w.place.Keys == s.heap.Keys && w'.place.Keys == s'.heap.Keys
  }

  /** Only thread t, queue q and their nodes differ between the two states. */
  ghost predicate Local(s: State, w: Witness, c: Contents, t: Tid, q: nat, s': State, w': Witness, c': Contents) {
    && SameShape(s, w, c, s', w', c') && t < |s.threads| && q < |c|
    && (forall u :: 0 <= u < |s.threads| && u != t ==> s'.threads[u] == s.threads[u])
    && (forall p :: 0 <= p < |c| && p != q ==> s'.queues[p] == s.queues[p])
    && (forall p :: 0 <= p < |c| && p != q ==> w'.chains[p] == w.chains[p])
    && (forall p :: 0 <= p < |c| && p != q ==> c'[p] == c[p])
    && (forall n :: n in s.heap && w.place[n] != InQueue(q) && w.place[n] != Private(t) ==>
          n in s'.heap && s'.heap[n] == s.heap[n] && w'.place[n] == w.place[n])
  }

  /** How a step may change locks: only that of q, taking it when free or giving it up. */
  ghost predicate LockMove(s: State, t: Tid, q: nat, s': State)
    requires t < |s.threads| && |s'.threads| == |s.threads| && q < |s.queues| && |s'.queues| == |s.queues|
  {
    var pc, pc' := s.threads[t], s'.threads[t];
    && (forall p :: 0 <= p < |s.queues| && p != q ==> (Holds(pc, p) <==> Holds(pc', p)))
    && (forall p :: 0 <= p < |s.queues| && p != q && Holds(pc, p) ==> Neutral(pc) && Neutral(pc'))
    && (if Holds(pc', q)
        then s'.queues[q].lock == Some(t) && (Holds(pc, q) || s.queues[q].lock == None)
        else if Holds(pc, q) then s'.queues[q].lock == None
        else s'.queues[q].lock == s.queues[q].lock)
  }

  lemma LocksFrame(s: State, w: Witness, c: Contents, t: Tid, q: nat, s': State, w': Witness, c': Contents)
    requires LocksOk(s) && Local(s, w, c, t, q, s', w', c') && LockMove(s, t, q, s')
    ensures LocksOk(s')
  {
    forall u, p | 0 <= u < |s'.threads| && 0 <= p < |s'.queues|
      ensures Holds(s'.threads[u], p) <==> s'.queues[p].lock == Some(u)
    {
      assert Holds(s.threads[u], p) <==> s.queues[p].lock == Some(u);
      assert Holds(s.threads[t], p) <==> s.queues[p].lock == Some(t);
    }
  }

  lemma QueueFrame(s: State, w: Witness, c: Contents, t: Tid, q: nat, s': State, w': Witness, c': Contents, p: nat)
    requires LocksOk(s) && Local(s, w, c, t, q, s', w', c') && LockMove(s, t, q, s')
    requires p < |c| && p != q && QueueOk(s, w, c, p)
    ensures QueueOk(s', w', c', p)
  {
    var ch := w.chains[p];
    assert s.queues[p].lock == Some(t) ==> Holds(s.threads[t], p);
    assert Holder(s', p) == Holder(s, p) || (Neutral(Holder(s, p)) && Neutral(Holder(s', p)));
    forall i | 0 <= i < |ch| ensures ch[i] in s'.heap && s'.heap[ch[i]] == s.heap[ch[i]]
        && w'.place[ch[i]] == InQueue(p) {
      assert w.place[ch[i]] == InQueue(p);
    }
  }

  lemma TotalSizeFrame(c: Contents, c': Contents, q: nat, i: nat)
    requires |c| == |c'| && q < |c| && i <= |c| && (i <= q || c'[q] == c[q])
    requires forall p :: 0 <= p < |c| && p != q ==> c'[p] == c[p]
    ensures TotalSize(c'[..i]) == TotalSize(c[..i])
  {
    assert c'[..i] == c[..i];
  }

  lemma ThreadFrame(s: State, w: Witness, c: Contents, t: Tid, q: nat, s': State, w': Witness, c': Contents, u: Tid)
    requires LocksOk(s) && Local(s, w, c, t, q, s', w', c')
    requires c'[q] == c[q] || s.queues[q].lock == Some(t)
    requires u < |s.threads| && u != t && ThreadOk(s, w, c, u)
    ensures ThreadOk(s', w', c', u)
  {
    var pc := s.threads[u];
    assert Holds(pc, q) ==> s.queues[q].lock == Some(u);
    if pc.SumLock? || pc.SumRead? {
      TotalSizeFrame(c, c', q, pc.i);
    }
  }

  /** A local step keeps the invariant when it keeps it for its queue and itself. */
  lemma Reassemble(s: State, w: Witness, c: Contents, t: Tid, q: nat, s': State, w': Witness, c': Contents)
    requires Inv(s, w, c) && Local(s, w, c, t, q, s', w', c') && LockMove(s, t, q, s')
    requires c'[q] == c[q] || s.queues[q].lock == Some(t)
    requires QueueOk(s', w', c', q) && ThreadOk(s', w', c', t)
    ensures Inv(s', w', c')
  {
    LocksFrame(s, w, c, t, q, s', w', c');
    forall p | 0 <= p < |c'| ensures QueueOk(s', w', c', p) {
      if p != q { QueueFrame(s, w, c, t, q, s', w', c', p); }
    }
    forall u | 0 <= u < |s'.threads| ensures ThreadOk(s', w', c', u) {
      if u != t { ThreadFrame(s, w, c, t, q, s', w', c', u); }
    }
  }

  // ------------------------------------------------------------ step by step

  /** The step is either invisible or the one instant at which the operation that
      thread t serves takes effect, with the response that it will return. */
  ghost predicate Refined(s: State, c: Contents, t: Tid, s': State, w': Witness, c': Contents) {
    && Inv(s', w', c') && t < |s.threads| == |s'.threads|
    && var (pc, pc') := (s.threads[t], s'.threads[t]);
       if Promise(pc) == None && Promise(pc') != None
       then var r := Serving(pc);
            r.Some? && (r.value.SizeAll? || r.value.q < |c|)
            && Apply(c, r.value) == (c', Promise(pc').value)
       else c' == c && Promise(pc') == Promise(pc) && (Promise(pc) == None ==> Serving(pc') == Serving(pc))
  }

  lemma HolderIs(s: State, w: Witness, c: Contents, t: Tid, q: nat)
    requires Inv(s, w, c) && t < |s.threads| && q < |c| && Holds(s.threads[t], q)
    ensures s.queues[q].lock == Some(t) && Holder(s, q) == s.threads[t]
  {}

  lemma NotHolder(s: State, w: Witness, c: Contents, t: Tid, q: nat)
    requires Inv(s, w, c) && t < |s.threads| && q < |c| && !Holds(s.threads[t], q)
    ensures s.queues[q].lock != Some(t)
  {}

  /** Steps that leave every list, size and node alone. */
  lemma Quiet(s: State, w: Witness, c: Contents, t: Tid, q: nat, s': State)
    requires Inv(s, w, c) && t < |s.threads| && q < |c|
    requires |s'.threads| == |s.threads| && s'.threads == s.threads[t := s'.threads[t]]
    requires |s'.queues| == |s.queues| && s'.queues == s.queues[q := s.queues[q].(lock := s'.queues[q].lock)]
    requires s'.heap == s.heap && LockMove(s, t, q, s')
    requires Listed(Holder(s', q), c[q]) == Listed(Holder(s, q), c[q])
    requires HolderOk(Holder(s', q), s.heap, s.queues[q], w.chains[q], c[q])
    requires ThreadOk(s', w, c, t)
    ensures Inv(s', w, c)
  {
    assert QueueOk(s, w, c, q);
    assert QueueOk(s', w, c, q);
    Reassemble(s, w, c, t, q, s', w, c);
  }

  lemma StepEnqLock(s: State, w: Witness, c: Contents, t: Tid)
    requires Inv(s, w, c) && Working(s, t) && s.threads[t].EnqLock?
    ensures Defined(s, t) && Refined(s, c, t, Step(s, t), w, c)
  {
    assert ThreadOk(s, w, c, t);
    var q := s.threads[t].q;
    assert QueueOk(s, w, c, q);
    if s.queues[q].lock == None { Quiet(s, w, c, t, q, Step(s, t)); }
  }

  lemma StepDeqLock(s: State, w: Witness, c: Contents, t: Tid)
    requires Inv(s, w, c) && Working(s, t) && s.threads[t].DeqLock?
    ensures Defined(s, t) && Refined(s, c, t, Step(s, t), w, c)
  {
    assert ThreadOk(s, w, c, t);
    var q := s.threads[t].q;
    assert QueueOk(s, w, c, q);
    if s.queues[q].lock == None { Quiet(s, w, c, t, q, Step(s, t)); }
  }

  lemma StepEnqUnlock(s: State, w: Witness, c: Contents, t: Tid)
    requires Inv(s, w, c) && Working(s, t) && s.threads[t].EnqUnlock?
    ensures Defined(s, t) && Refined(s, c, t, Step(s, t), w, c)
  {
    assert ThreadOk(s, w, c, t);
    var q := s.threads[t].q;
    HolderIs(s, w, c, t, q);
    Quiet(s, w, c, t, q, Step(s, t));
  }

  lemma StepDeqEmpty(s: State, w: Witness, c: Contents, t: Tid)
    requires Inv(s, w, c) && Working(s, t) && s.threads[t].DeqEmpty?
    ensures Defined(s, t) && Refined(s, c, t, Step(s, t), w, c)
  {
    assert ThreadOk(s, w, c, t);
    var q := s.threads[t].q;
    HolderIs(s, w, c, t, q);
    Quiet(s, w, c, t, q, Step(s, t));
  }

  lemma StepDeqUnlock(s: State, w: Witness, c: Contents, t: Tid)
    requires Inv(s, w, c) && Working(s, t) && s.threads[t].DeqUnlock?
    ensures Defined(s, t) && Refined(s, c, t, Step(s, t), w, c)
  {
    assert ThreadOk(s, w, c, t);
    var q := s.threads[t].q;
    HolderIs(s, w, c, t, q);
    Quiet(s, w, c, t, q, Step(s, t));
  }

  /** The unlocked check: a zero size is seen only while the queue is empty. */
  lemma StepDeqPeek(s: State, w: Witness, c: Contents, t: Tid)
    requires Inv(s, w, c) && Working(s, t) && s.threads[t].DeqPeek?
    ensures Defined(s, t) && Refined(s, c, t, Step(s, t), w, c)
  {
    assert ThreadOk(s, w, c, t);
    var q := s.threads[t].q;
    assert QueueOk(s, w, c, q);
    NotHolder(s, w, c, t, q);
    assert Holder(Step(s, t), q) == Holder(s, q);
    Quiet(s, w, c, t, q, Step(s, t));
  }

  lemma StepDeqCheck(s: State, w: Witness, c: Contents, t: Tid)
    requires Inv(s, w, c) && Working(s, t) && s.threads[t].DeqCheck?
    ensures Defined(s, t) && Refined(s, c, t, Step(s, t), w, c)
  {
    assert ThreadOk(s, w, c, t);
    var q := s.threads[t].q;
    HolderIs(s, w, c, t, q);
    assert QueueOk(s, w, c, q);
    Quiet(s, w, c, t, q, Step(s, t));
  }

  lemma StepDeqHead(s: State, w: Witness, c: Contents, t: Tid)
    requires Inv(s, w, c) && Working(s, t) && s.threads[t].DeqHead?
    ensures Defined(s, t) && Refined(s, c, t, Step(s, t), w, c)
  {
    assert ThreadOk(s, w, c, t);
    var q := s.threads[t].q;
    HolderIs(s, w, c, t, q);
    assert QueueOk(s, w, c, q);
    Quiet(s, w, c, t, q, Step(s, t));
  }

  lemma StepDeqNext(s: State, w: Witness, c: Contents, t: Tid)
    requires Inv(s, w, c) && Working(s, t) && s.threads[t].DeqNext?
    ensures Defined(s, t) && Refined(s, c, t, Step(s, t), w, c)
  {
    assert ThreadOk(s, w, c, t);
    var q := s.threads[t].q;
    HolderIs(s, w, c, t, q);
    assert QueueOk(s, w, c, q);
    Quiet(s, w, c, t, q, Step(s, t));
  }

  lemma StepDeqData(s: State, w: Witness, c: Contents, t: Tid)
    requires Inv(s, w, c) && Working(s, t) && s.threads[t].DeqData?
    ensures Defined(s, t) && Refined(s, c, t, Step(s, t), w, c)
  {
    assert ThreadOk(s, w, c, t);
    var q := s.threads[t].q;
    HolderIs(s, w, c, t, q);
    assert QueueOk(s, w, c, q);
    Quiet(s, w, c, t, q, Step(s, t));
  }

  lemma StepSumLock(s: State, w: Witness, c: Contents, t: Tid)
    requires Inv(s, w, c) && Working(s, t) && s.threads[t].SumLock?
    ensures Defined(s, t) && Refined(s, c, t, Step(s, t), w, c)
  {
    assert ThreadOk(s, w, c, t);
    var i := s.threads[t].i;
    assert QueueOk(s, w, c, i);
    if s.queues[i].lock == None { Quiet(s, w, c, t, i, Step(s, t)); }
  }

  lemma TotalSizeNext(c: Contents, i: nat)
    requires i < |c|
    ensures TotalSize(c[..i + 1]) == TotalSize(c[..i]) + |c[i]|
  {
    assert c[..i + 1][..i] == c[..i];
  }

  /** The last size is read with every lock held: that is the instant of the sum. */
  lemma StepSumRead(s: State, w: Witness, c: Contents, t: Tid)
    requires Inv(s, w, c) && Working(s, t) && s.threads[t].SumRead?
    ensures Defined(s, t) && Refined(s, c, t, Step(s, t), w, c)
  {
    assert ThreadOk(s, w, c, t);
    var i := s.threads[t].i;
    HolderIs(s, w, c, t, i);
    assert QueueOk(s, w, c, i);
    TotalSizeNext(c, i);
    assert c[..|c|] == c;
    Quiet(s, w, c, t, i, Step(s, t));
  }

  lemma StepSumUnlock(s: State, w: Witness, c: Contents, t: Tid)
    requires Inv(s, w, c) && Working(s, t) && s.threads[t].SumUnlock?
    ensures Defined(s, t) && Refined(s, c, t, Step(s, t), w, c)
  {
    assert ThreadOk(s, w, c, t);
    var i := s.threads[t].i;
    HolderIs(s, w, c, t, i);
    assert QueueOk(s, w, c, i);
    Quiet(s, w, c, t, i, Step(s, t));
  }

  /** Writing the next field of the last node disturbs no list. */
  lemma StepEnqLink(s: State, w: Witness, c: Contents, t: Tid)
    requires Inv(s, w, c) && Working(s, t) && s.threads[t].EnqLink?
    ensures Defined(s, t) && Refined(s, c, t, Step(s, t), w, c)
  {
    assert ThreadOk(s, w, c, t);
    var q := s.threads[t].q;
    HolderIs(s, w, c, t, q);
    assert QueueOk(s, w, c, q);
    var s' := Step(s, t);
    var ch := w.chains[q];
    assert w.place[s.queues[q].tail] == InQueue(q);
    assert s'.heap.Keys == s.heap.Keys;
    assert Holder(s', q) == s'.threads[t];
    assert Linked(s'.heap, ch, c[q]) by {
      forall i | 0 <= i < |c[q]| ensures s'.heap[ch[i]].next == ch[i + 1] && s'.heap[ch[i + 1]].data == c[q][i] {
        assert ch[i] != ch[|ch| - 1];
      }
    }
    Reassemble(s, w, c, t, q, s', w, c);
  }

  lemma LinkedAppend(heap: map<NodeId, Node>, ch: seq<NodeId>, items: seq<Chunk>, node: NodeId, item: Chunk)
    requires Linked(heap, ch, items) && node in heap && heap[node].data == item
    requires heap[ch[|ch| - 1]].next == node
    ensures Linked(heap, ch + [node], items + [item])
  {}

  lemma StepEnqTail(s: State, w: Witness, c: Contents, t: Tid) returns (w': Witness)
    requires Inv(s, w, c) && Working(s, t) && s.threads[t].EnqTail?
    ensures Defined(s, t) && Refined(s, c, t, Step(s, t), w', c)
  {
    assert ThreadOk(s, w, c, t);
    var q, node := s.threads[t].q, s.threads[t].node;
    HolderIs(s, w, c, t, q);
    assert QueueOk(s, w, c, q);
    var s', ch := Step(s, t), w.chains[q];
    w' := Witness(w.chains[q := ch + [node]], w.place[node := InQueue(q)]);
    LinkedAppend(s.heap, ch, c[q], node, s.threads[t].item);
    assert Holder(s', q) == s'.threads[t];
    assert forall i :: 0 <= i < |ch| ==> w.place[ch[i]] == InQueue(q);
    assert QueueOk(s', w', c, q);
    Reassemble(s, w, c, t, q, s', w', c);
  }

  lemma StepEnqSize(s: State, w: Witness, c: Contents, t: Tid) returns (c': Contents)
    requires Inv(s, w, c) && Working(s, t) && s.threads[t].EnqSize?
    ensures Defined(s, t) && Refined(s, c, t, Step(s, t), w, c')
  {
    assert ThreadOk(s, w, c, t);
    var q := s.threads[t].q;
    HolderIs(s, w, c, t, q);
    assert QueueOk(s, w, c, q);
    var s' := Step(s, t);
    c' := c[q := c[q] + [s.threads[t].item]];
    assert Holder(s', q) == s'.threads[t];
    assert QueueOk(s', w, c', q);
    Reassemble(s, w, c, t, q, s', w, c');
  }

  lemma LinkedTail(heap: map<NodeId, Node>, ch: seq<NodeId>, items: seq<Chunk>)
    requires Linked(heap, ch, items) && items != []
    ensures Linked(heap, ch[1..], items[1..])
  {}

  lemma StepDeqMove(s: State, w: Witness, c: Contents, t: Tid) returns (w': Witness)
    requires Inv(s, w, c) && Working(s, t) && s.threads[t].DeqMove?
    ensures Defined(s, t) && Refined(s, c, t, Step(s, t), w', c)
  {
    assert ThreadOk(s, w, c, t);
    var q := s.threads[t].q;
    HolderIs(s, w, c, t, q);
    assert QueueOk(s, w, c, q);
    var s', ch := Step(s, t), w.chains[q];
    w' := Witness(w.chains[q := ch[1..]], w.place[ch[0] := Private(t)]);
    LinkedTail(s.heap, ch, c[q]);
    assert w.place[ch[0]] == InQueue(q);
    assert Holder(s', q) == s'.threads[t];
    assert forall i :: 0 <= i < |ch| - 1 ==> ch[1..][i] == ch[i + 1] && ch[i + 1] != ch[0];
    assert QueueOk(s', w', c, q);
    Reassemble(s, w, c, t, q, s', w', c);
  }

  lemma StepDeqSize(s: State, w: Witness, c: Contents, t: Tid) returns (c': Contents)
    requires Inv(s, w, c) && Working(s, t) && s.threads[t].DeqSize?
    ensures Defined(s, t) && Refined(s, c, t, Step(s, t), w, c')
  {
    assert ThreadOk(s, w, c, t);
    var q := s.threads[t].q;
    HolderIs(s, w, c, t, q);
    assert QueueOk(s, w, c, q);
    var s' := Step(s, t);
    c' := c[q := c[q][1..]];
    assert Holder(s', q) == s'.threads[t];
    assert QueueOk(s', w, c', q);
    Reassemble(s, w, c, t, q, s', w, c');
  }

  /** Steps that change no queue and hold no lock. */
  lemma NoQueue(s: State, w: Witness, c: Contents, t: Tid, s': State, w': Witness)
    requires Inv(s, w, c) && t < |s.threads| && |s'.threads| == |s.threads|
    requires s'.threads == s.threads[t := s'.threads[t]] && s'.queues == s.queues && w'.chains == w.chains
    requires w'.place.Keys == s'.heap.Keys
    requires forall n :: n in s.heap && w.place[n] != Private(t) ==>
               n in s'.heap && s'.heap[n] == s.heap[n] && w'.place[n] == w.place[n]
    requires forall q :: 0 <= q < |c| ==> !Holds(s.threads[t], q) && !Holds(s'.threads[t], q)
    requires ThreadOk(s', w', c, t)
    ensures Inv(s', w', c)
  {
    assert LocksOk(s') by {
      forall u, p | 0 <= u < |s'.threads| && 0 <= p < |s'.queues|
        ensures Holds(s'.threads[u], p) <==> s'.queues[p].lock == Some(u)
      {
        assert Holds(s.threads[u], p) <==> s.queues[p].lock == Some(u);
      }
    }
    forall p | 0 <= p < |c| ensures QueueOk(s', w', c, p) {
      assert QueueOk(s, w, c, p);
      NotHolder(s, w, c, t, p);
      assert Holder(s', p) == Holder(s, p);
      var ch := w.chains[p];
      forall i | 0 <= i < |ch| ensures ch[i] in s'.heap && s'.heap[ch[i]] == s.heap[ch[i]]
          && w'.place[ch[i]] == InQueue(p) {
        assert w.place[ch[i]] == InQueue(p);
      }
    }
    forall u | 0 <= u < |s'.threads| ensures ThreadOk(s', w', c, u) {
      assert ThreadOk(s, w, c, u);
    }
  }

  lemma StepDeqFree(s: State, w: Witness, c: Contents, t: Tid) returns (w': Witness)
    requires Inv(s, w, c) && Working(s, t) && s.threads[t].DeqFree?
    ensures Defined(s, t) && Refined(s, c, t, Step(s, t), w', c)
  {
    assert ThreadOk(s, w, c, t);
    w' := w.(place := w.place - {s.threads[t].node});
    NoQueue(s, w, c, t, Step(s, t), w');
  }

  // ------------------------------------------------------------- main results

  /** Every step of every interleaving refines the atomic queues: it is invisible,
      or it is where its thread's operation takes effect, at once and with the
      response the thread will return. */
  lemma StepRefines(s: State, w: Witness, c: Contents, t: Tid) returns (w': Witness, c': Contents)
    requires Inv(s, w, c) && Working(s, t)
    ensures Defined(s, t) && Refined(s, c, t, Step(s, t), w', c')
  {
    w', c' := w, c;
    match s.threads[t]
    case EnqLock(_, _, _) => StepEnqLock(s, w, c, t);
    case EnqLink(_, _, _) => StepEnqLink(s, w, c, t);
    case EnqTail(_, _, _) => w' := StepEnqTail(s, w, c, t);
    case EnqSize(_, _, _) => c' := StepEnqSize(s, w, c, t);
    case EnqUnlock(_) => StepEnqUnlock(s, w, c, t);
    case DeqPeek(_) => StepDeqPeek(s, w, c, t);
    case DeqLock(_) => StepDeqLock(s, w, c, t);
    case DeqCheck(_) => StepDeqCheck(s, w, c, t);
    case DeqEmpty(_) => StepDeqEmpty(s, w, c, t);
    case DeqHead(_) => StepDeqHead(s, w, c, t);
    case DeqNext(_, _) => StepDeqNext(s, w, c, t);
    case DeqData(_, _, _) => StepDeqData(s, w, c, t);
    case DeqMove(_, _, _, _) => w' := StepDeqMove(s, w, c, t);
    case DeqSize(_, _, _) => c' := StepDeqSize(s, w, c, t);
    case DeqUnlock(_, _, _) => StepDeqUnlock(s, w, c, t);
    case DeqFree(_, _) => w' := StepDeqFree(s, w, c, t);
    case SumLock(_, _) => StepSumLock(s, w, c, t);
    case SumRead(_, _) => StepSumRead(s, w, c, t);
    case SumUnlock(_, _) => StepSumUnlock(s, w, c, t);
    case Idle =>
    case Done(_) =>
  }

  lemma StartRefines(s: State, w: Witness, c: Contents, t: Tid, r: Request, node: NodeId, garbage: NodeId)
    returns (w': Witness)
    requires Inv(s, w, c) && CanStart(s, t, r, node)
    ensures Inv(Start(s, t, r, node, garbage), w', c)
    ensures Serving(Start(s, t, r, node, garbage).threads[t]) == Some(r)
    ensures Promise(Start(s, t, r, node, garbage).threads[t]) == None
  {
    w' := if r.Enqueue? then w.(place := w.place[node := Private(t)]) else w;
    NoQueue(s, w, c, t, Start(s, t, r, node, garbage), w');
  }

  lemma FinishRefines(s: State, w: Witness, c: Contents, t: Tid)
    requires Inv(s, w, c) && t < |s.threads| && s.threads[t].Done?
    ensures Inv(Finish(s, t), w, c)
  {
    NoQueue(s, w, c, t, Finish(s, t), w);
  }

  /** At most one thread is inside a queue's lock. */
  lemma MutualExclusion(s: State, w: Witness, c: Contents, t: Tid, u: Tid, q: nat)
    requires Inv(s, w, c) && t < |s.threads| && u < |s.threads| && q < |c|
    requires Holds(s.threads[t], q) && Holds(s.threads[u], q)
    ensures t == u
  {
    assert s.queues[q].lock == Some(t);
    assert s.queues[q].lock == Some(u);
  }

  /** While a queue is unlocked, its list has exactly `size` nodes after the dummy,
      holding the queue's items in order and ending at the tail. */
  lemma UnlockedList(s: State, w: Witness, c: Contents, q: nat)
    requires Inv(s, w, c) && q < |c| && s.queues[q].lock == None
    ensures Linked(s.heap, w.chains[q], c[q]) && s.queues[q].size == |c[q]| == |w.chains[q]| - 1
    ensures w.chains[q][0] == s.queues[q].head && w.chains[q][|c[q]|] == s.queues[q].tail
  {
    assert QueueOk(s, w, c, q);
  }

  // ---------------------------------------------------------- deadlock freedom

  /** The queue a thread is spinning for. */
  function Awaits(pc: Pc): Option<nat> {
    match pc
    case EnqLock(q, _, _) => Some(q)
    case DeqLock(q) => Some(q)
    case SumLock(i, _) => Some(i)
    case _ => None
  }

  predicate Blocked(s: State, t: Tid)
    requires t < |s.threads|
  {
    var a := Awaits(s.threads[t]);
    a.Some? && (a.value < |s.queues| ==> s.queues[a.value].lock != None)
  }

  /** Locks are taken in ascending order, so following holders upwards ends at a
      thread that can move. */
  lemma {:induction false} HolderCanMove(s: State, w: Witness, c: Contents, q: nat) returns (t: Tid)
    requires Inv(s, w, c) && q < |c| && s.queues[q].lock != None
    ensures Working(s, t) && !Blocked(s, t)
    decreases |c| - q
  {
    t := s.queues[q].lock.value;
    assert Holds(s.threads[t], q);
    assert ThreadOk(s, w, c, t);
    if Blocked(s, t) {
      t := HolderCanMove(s, w, c, s.threads[t].i);
    }
  }

  /** No set of concurrent operations deadlocks: while an operation is under way,
      some thread in an operation can move, and its step changes its position. */
  lemma NoDeadlock(s: State, w: Witness, c: Contents, u: Tid) returns (t: Tid)
    requires Inv(s, w, c) && Working(s, u)
    ensures Working(s, t) && !Blocked(s, t) && Defined(s, t) && Step(s, t).threads[t] != s.threads[t]
  {
    t := u;
    assert ThreadOk(s, w, c, u);
    if Blocked(s, u) {
      t := HolderCanMove(s, w, c, Awaits(s.threads[u]).value);
    }
    var w', c' := StepRefines(s, w, c, t);
    assert ThreadOk(s, w, c, t);
  }

  // ------------------------------------------------------------ initial state

  /** Freshly created queues: unlocked, each with its own dummy node and nothing else. */
  ghost predicate Fresh(s: State) {
    && |s.queues| > 0
    && (forall q :: 0 <= q < |s.queues| ==> IsEmptyQueue(s.queues[q]) && s.queues[q].head in s.heap)
    && (forall q, p :: 0 <= q < p < |s.queues| ==> s.queues[q].head != s.queues[p].head)
    && (forall t :: 0 <= t < |s.threads| ==> s.threads[t] == Idle)
  }

  predicate IsEmptyQueue(qu: Queue) {
    qu.lock == None && qu.size == 0 && qu.head == qu.tail
  }

  ghost function PlaceOf(s: State, n: NodeId): Place {
    if exists q :: 0 <= q < |s.queues| && s.queues[q].head == n
    then var q :| 0 <= q < |s.queues| && s.queues[q].head == n; InQueue(q)
    else Private(|s.threads|)
  }

  lemma FreshOk(s: State) returns (w: Witness)
    requires Fresh(s)
    ensures Inv(s, w, seq(|s.queues|, q => []))
  {
    var c := seq(|s.queues|, q => []);
    w := Witness(seq(|s.queues|, q requires 0 <= q < |s.queues| => [s.queues[q].head]),
                 map n | n in s.heap :: PlaceOf(s, n));
    forall q | 0 <= q < |c| ensures QueueOk(s, w, c, q) {
      assert IsEmptyQueue(s.queues[q]);
    }
    forall t | 0 <= t < |s.threads| ensures ThreadOk(s, w, c, t) {}
  }
}
