/** The parallel sort: each node sorts its share by chunks and in-socket rounds, then
    the tree of nodes merges the shares into the array. */
module MctopSort {
  import opened Arithmetic
  import opened FiniteSets
  import opened SortedSeqs
  import opened Phases
  import opened Traces
  import opened MergeJobs
  import opened Pieces
  import opened SocketMerge
  import opened SocketRounds
  import opened Chunking
  import opened NodeTrees
  import opened CrossSocket
  import opened CrossLevels
  import opened SortSpec
  import opened ParallelMerge

  /** Chunk sizes are rounded down so that they fit the SSE width. */
  const MCTOP_SSE_K: nat := 4

  class SortData {
    var memory: Memory
    var nodes: seq<NodeData>

    /** Every thread of node x copies its chunk of the share to the node's source
        buffer and sorts it there. */
    method SortChunks(x: nat, k: nat, schedule: Scheduler) returns (ghost ps: Runs, ghost trace: Program)
      requires x < |nodes| && Layout(memory, nodes) && Fair(schedule) && HasShare(memory, nodes[x])
      requires k > 0 && 0 < ChunkUnit(MCTOP_SSE_K, k) <= nodes[x].nElems / k
      modifies this
      ensures OnlyNode(old(memory), old(nodes), memory, nodes, x) && Layout(memory, nodes)
      ensures |ps| == k && Described(memory, nodes[x], ps, k)
      ensures multiset(Flatten(ps)) == multiset(ShareOf(old(memory), old(nodes[x])))
              && |Flatten(ps)| == old(nodes[x].nElems)
      ensures Traced(old(memory), trace, memory) && StaysIn(trace, 2 * x + 1, 2 * x + 2)
    {
      assert OwnBuffers(nodes[x], x);
      var n := nodes[x].nElems;
      var c := SizeGetNumDivByAB(n / k, MCTOP_SSE_K, k);
      ChunkSize(n, MCTOP_SSE_K, k, c);
      var parts;
      memory, parts, ps, trace := FillChunks(memory, nodes[x].source, ShareOf(memory, nodes[x]), c, k, x, schedule);
      nodes := nodes[x := nodes[x].(partitions := parts)];
    }

    /** The rounds inside a socket: from one run per thread to one run, in as many rounds
        as it takes to halve the number of partitions, rounded up, down to one. */
    method MergeInSocket(x: nat, n: nat, nChunks: nat, schedule: Scheduler, ghost ps0: Runs)
      returns (rounds: nat, ghost trace: Program)
      requires x < |nodes| && Layout(memory, nodes) && Fair(schedule)
      requires nChunks == |ps0| > 0 && Described(memory, nodes[x], ps0, n)
      modifies this
      ensures rounds == RoundsFor(nChunks)
      ensures OnlyNode(old(memory), old(nodes), memory, nodes, x) && Layout(memory, nodes)
      ensures |Flatten(ps0)| <= |memory[nodes[x].source]|
      ensures memory[nodes[x].source][..|Flatten(ps0)|] == Sort(Flatten(ps0))
      ensures Traced(old(memory), trace, memory) && StaysIn(trace, 2 * x + 1, 2 * x + 2)
    {
      assert OwnBuffers(nodes[x], x);
      ghost var memory0 := memory;
      var parts, src, dest;
      memory, parts, src, dest, rounds, trace :=
        MergeRounds(memory, nodes[x].partitions, nodes[x].source, nodes[x].destination, x, n, nChunks, schedule, ps0);
      nodes := nodes[x := nodes[x].(partitions := parts)];
      if nodes[x].source != src {
        nodes := nodes[x := nodes[x].(source := src, destination := dest)];
      }
    }

    /** What one node's threads do before the nodes meet. */
    method SortNode(x: nat, k: nat, schedule: Scheduler) returns (ghost trace: Program)
      requires x < |nodes| && Layout(memory, nodes) && Fair(schedule) && HasShare(memory, nodes[x])
      requires k > 0 && 0 < ChunkUnit(MCTOP_SSE_K, k) <= nodes[x].nElems / k
      modifies this
      ensures OnlyNode(old(memory), old(nodes), memory, nodes, x) && Layout(memory, nodes)
      ensures RunOf(memory, nodes[x]) == Sort(ShareOf(old(memory), old(nodes[x])))
      ensures Traced(old(memory), trace, memory) && StaysIn(trace, 2 * x + 1, 2 * x + 2)
    {
      ghost var share, memory0 := ShareOf(memory, nodes[x]), memory;
      ghost var ps, chunks := SortChunks(x, k, schedule);
      ghost var memory1 := memory;
      var rounds;
      rounds, trace := MergeInSocket(x, k, k, schedule, ps);
      TracedAppend(memory0, chunks, memory1, trace, memory);
      trace := chunks + trace;
      SortedUnique(Sort(Flatten(ps)), Sort(share));
    }

    /** All nodes sort their shares. A node reads the array and its own two buffers and writes these two
        only; `traces` are the nodes' stores, and every interleaving of them leaves the same memory. */
    method SortNodes(hwcs: seq<nat>, schedule: Scheduler, ghost a: seq<int>, ghost nd: nat, ghost extra: nat)
      returns (ghost traces: seq<Program>)
      requires Layout(memory, nodes) && |nodes| == |hwcs| && memory[0] == a && Fair(schedule)
      requires SharesFit(|a|, nd, extra, |nodes|)
      requires forall x :: 0 <= x < |nodes| ==>
                 Assigned(nodes[x], nd, extra, |nodes|, x) && ChunksUsable(nodes[x], hwcs[x])
      modifies this
      ensures Layout(memory, nodes) && |nodes| == old(|nodes|) && memory[0] == a
      ensures forall x :: 0 <= x < |nodes| ==> Assigned(nodes[x], nd, extra, |nodes|, x)
      ensures forall x :: 0 <= x < |nodes| ==> RunOf(memory, nodes[x]) == Sort(Share(a, nd, extra, |nodes|, x))
      ensures |traces| == |nodes| && OwnOnly(traces) && AnyOrder(old(memory), traces, memory)
    {
      traces := [];
      var x: nat := 0;
      while x < |nodes|
        invariant x <= |nodes| == old(|nodes|) && Layout(memory, nodes) && memory[0] == a
        invariant forall y :: 0 <= y < |nodes| ==> Assigned(nodes[y], nd, extra, |nodes|, y)
        invariant |traces| == x && RanInTurn(old(memory), traces, memory)
        invariant forall y :: x <= y < |nodes| ==> ChunksUsable(nodes[y], hwcs[y])
        invariant forall y :: 0 <= y < x ==> RunOf(memory, nodes[y]) == Sort(Share(a, nd, extra, |nodes|, y))
      {
        assert Assigned(nodes[x], nd, extra, |nodes|, x) && ChunksUsable(nodes[x], hwcs[x]);
        AssignedShare(memory, nodes[x], a, nd, extra, |nodes|, x);
        ghost var memory0, nodes0 := memory, nodes;
        ghost var trace := SortNode(x, hwcs[x], schedule);
        OthersKept(memory0, nodes0, memory, nodes, x);
        NextInTurn(old(memory), traces, memory0, trace, memory);
        traces := traces + [trace];
        x := x + 1;
      }
      InTurnIsAnyOrder(old(memory), traces, memory);
    }

    /** Before the nodes meet, every leader sets its node's size to the plain share. */
    method LevelSizes(nd: nat, ghost a: seq<int>, ghost extra: nat)
      requires Layout(memory, nodes) && |nodes| > 0 && SharesFit(|a|, nd, extra, |nodes|)
      requires forall x :: 0 <= x < |nodes| ==> Assigned(nodes[x], nd, extra, |nodes|, x)
      requires forall x :: 0 <= x < |nodes| ==> RunOf(memory, nodes[x]) == Sort(Share(a, nd, extra, |nodes|, x))
      modifies this`nodes
      ensures Layout(memory, nodes) && |nodes| == old(|nodes|)
      ensures forall x :: 0 <= x < |nodes| ==> Levelled(memory, nodes[x], Firsts(a, nd, extra, |nodes|), nd, x)
    {
      var x: nat := 0;
      while x < |nodes|
        invariant x <= |nodes| == old(|nodes|) && Layout(memory, nodes)
        invariant forall y :: x <= y < |nodes| ==> Assigned(nodes[y], nd, extra, |nodes|, y)
        invariant forall y :: x <= y < |nodes| ==> RunOf(memory, nodes[y]) == Sort(Share(a, nd, extra, |nodes|, y))
        invariant forall y :: 0 <= y < x ==> Levelled(memory, nodes[y], Firsts(a, nd, extra, |nodes|), nd, y)
      {
        assert Assigned(nodes[x], nd, extra, |nodes|, x) && OwnBuffers(nodes[x], x);
        LevelOne(memory, nodes[x], a, nd, extra, |nodes|, x);
        nodes := nodes[x := nodes[x].(nElems := nd)];
        x := x + 1;
      }
    }

    /** With a single node all its threads copy the sorted keys back, a chunk each. */
    method CopyBack(k: nat, schedule: Scheduler)
      requires |nodes| == 1 && Layout(memory, nodes) && Fair(schedule) && k > 0
      requires |memory[0]| == nodes[0].nElems
      modifies this`memory
      ensures |memory| == old(|memory|) > 0 && memory[0] == RunOf(old(memory), nodes[0])
    {
      assert OwnBuffers(nodes[0], 0);
      var run := RunOf(memory, nodes[0]);
      var c := SizeGetNumDivByAB(nodes[0].nElems / k, MCTOP_SSE_K, k);
      ChunkSize(nodes[0].nElems, MCTOP_SSE_K, k, c);
      memory := CopyChunks(memory, run, c, k, schedule);
    }

    /** The descriptors a sort starts with. */
    method Assign(ns: nat, nd: nat, extra: nat)
      requires ns > 0
      modifies this`nodes
      ensures |nodes| == ns
      ensures forall x :: 0 <= x < ns ==> Assigned(nodes[x], nd, extra, ns, x) && OwnBuffers(nodes[x], x)
    {
      nodes := [];
      var x: nat := 0;
      while x < ns
        invariant x <= ns && |nodes| == x
        invariant forall y :: 0 <= y < x ==>
                    nodes[y].start == ChunkStart(nd, y) && nodes[y].nElems == nd && OwnBuffers(nodes[y], y)
      {
        nodes := nodes + [NodeData(ChunkStart(nd, x), nd, 2 * x + 1, 2 * x + 2, [])];
        x := x + 1;
      }
      nodes := nodes[ns - 1 := nodes[ns - 1].(nElems := nd + extra)];
    }

    /** The parallel path: n is large, so every node's threads have chunks to sort. */
    method SortParallel(hwcs: seq<nat>, levels: seq<Level>, lent: bool, schedule: Scheduler)
      requires |memory| == 1 + 2 * |hwcs| && forall b :: 0 <= b < |memory| ==> |memory[b]| == |memory[0]|
      requires Fair(schedule) && SharedOut(|memory[0]|, hwcs)
      requires |hwcs| > 1 ==> TreeFits(levels, |hwcs|, |memory[0]| / |hwcs|)
      modifies this
      ensures |memory| == old(|memory|) > 0 && Merging(Deepest(levels), |hwcs|)
      ensures memory[0] == Outcome(old(memory[0]), |hwcs|, Deepest(levels))
    {
      var n, ns := |memory[0]|, |hwcs|;
      ghost var a := memory[0];
      var nd := n / ns;
      SharesOfFit(n, ns);
      Assign(ns, nd, n % nd);
      forall x | 0 <= x < ns ensures ChunksUsable(nodes[x], hwcs[x]) { EnoughForAll(nodes[x], nd, n % nd, hwcs, x); }
      ghost var traces := SortNodes(hwcs, schedule, a, nd, n % nd);
      if ns == 1 {
        SingleShare(a);
        CopyBack(hwcs[0], schedule);
      } else {
        MergeNodes(levels, lent, schedule, nd, a, n % nd);
      }
    }

    /** With several nodes the tree merges their shares into the array. */
    method MergeNodes(levels: seq<Level>, lent: bool, schedule: Scheduler, nd: nat, ghost a: seq<int>,
                      ghost extra: nat)
      requires Layout(memory, nodes) && |nodes| > 0 && SharesFit(|a|, nd, extra, |nodes|) && memory[0] == a
      requires Fair(schedule) && TreeFits(levels, |nodes|, nd)
      requires forall x :: 0 <= x < |nodes| ==> Assigned(nodes[x], nd, extra, |nodes|, x)
      requires forall x :: 0 <= x < |nodes| ==> RunOf(memory, nodes[x]) == Sort(Share(a, nd, extra, |nodes|, x))
      modifies this
      ensures |memory| == old(|memory|) > 0
      ensures ChunkStart(nd, |Deepest(levels)|) <= |a| && Merging(Deepest(levels), old(|nodes|))
      ensures memory[0] == Sort(Flatten(Picked(Firsts(a, nd, extra, old(|nodes|)), Deepest(levels))))
                           + a[ChunkStart(nd, |Deepest(levels)|)..]
    {
      ghost var firsts := Picked(Firsts(a, nd, extra, |nodes|), Deepest(levels));
      LevelSizes(nd, a, extra);
      DeepestReady(memory, nodes, levels, Firsts(a, nd, extra, |nodes|), nd, |a|);
      MergeCrossSocket(levels, lent, schedule, nd, multiset(Flatten(firsts)));
      FinalIs(memory, a, firsts, nd);
    }

    /** The entry point: short arrays and single contexts sort sequentially. `lent` says whether idle nodes
        lend their threads. */
    method MctopSort(nHwcs: nat, hwcs: seq<nat>, levels: seq<Level>, lent: bool, schedule: Scheduler)
      requires |memory| == 1 + 2 * |hwcs| && forall b :: 0 <= b < |memory| ==> |memory[b]| == |memory[0]|
      requires Fair(schedule)
      requires |memory[0]| > 524288 && nHwcs != 1 ==>
                 SharedOut(|memory[0]|, hwcs) && (|hwcs| > 1 ==> TreeFits(levels, |hwcs|, |memory[0]| / |hwcs|))
      modifies this
      ensures |memory| == old(|memory|) > 0
      ensures Sortable(|old(memory[0])|, |hwcs|, Deepest(levels), nHwcs)
      ensures memory[0] == SortResult(old(memory[0]), |hwcs|, Deepest(levels), nHwcs)
      ensures |old(memory[0])| <= 524288 || nHwcs == 1 ==> memory[0] == Sort(old(memory[0]))
    {
      if !InParallel(|memory[0]|, nHwcs) {
        memory := memory[0 := Sort(memory[0])];
      } else {
        SortParallel(hwcs, levels, lent, schedule);
      }
    }

    /** One level: a barrier, all pairs' merges at once, a barrier, the leaders' updates. */
    method MergeLevel(levels: seq<Level>, l: nat, lent: bool, schedule: Scheduler, ghost least: nat,
                      ghost total: multiset<int>)
      requires l < |levels| && ValidTree(levels, |nodes|) && Fair(schedule) && TeamsFit(levels[l], least)
      requires LevelReady(memory, nodes, levels[l], least, total)
      modifies this
      ensures |nodes| == old(|nodes|) && |memory| == old(|memory|)
      ensures l > 0 ==> LevelReady(memory, nodes, levels[l - 1], least, total) && memory[0] == old(memory[0])
      ensures l == 0 ==> old(|memory|) > 0 && Final(memory, old(memory[0]), total)
      ensures SwappedTo(old(nodes), nodes, levels[l], lent, |levels[l]|)
    {
      ReadyIsMergeable(memory, nodes, levels[l], least, total);
      var programs := TeamsPrograms(LevelJobs(memory, nodes, levels[l], l == 0), |levels[l]|);
      var sched := schedule(LevelStage(l), programs);
      LevelPhase(memory, nodes, levels[l], l == 0, least, total, sched);
      ghost var memory0, nodes0 := memory, nodes;
      memory := Run(memory, programs, sched);
      assert ValidLevel(levels[l], |nodes|);
      nodes := SwapLeaders(nodes, levels[l], lent);
      if l == 0 {
        TopResult(memory0, nodes0, memory, levels[0], least, total);
      } else {
        assert LeadsTo(levels[l], levels[l - 1]);
        LevelUp(memory0, nodes0, memory, nodes, levels[l], levels[l - 1], least, total);
        ArrayKept(memory0, nodes0, memory, levels[l], least, total);
      }
    }

    /** The cross-socket merge, from the deepest level up to level 0. */
    method MergeCrossSocket(levels: seq<Level>, lent: bool, schedule: Scheduler, ghost least: nat,
                            ghost total: multiset<int>)
      requires ValidTree(levels, |nodes|) && Fair(schedule)
      requires forall l :: 0 <= l < |levels| ==> TeamsFit(levels[l], least)
      requires LevelReady(memory, nodes, levels[|levels| - 1], least, total)
      modifies this
      ensures |memory| == old(|memory|) > 0 && Final(memory, old(memory[0]), total)
    {
      var l := |levels| - 1;
      while l >= 0
        invariant -1 <= l < |levels| && ValidTree(levels, |nodes|) && |memory| == old(|memory|) > 0
        invariant l >= 0 ==> LevelReady(memory, nodes, levels[l], least, total) && memory[0] == old(memory[0])
        invariant l < 0 ==> Final(memory, old(memory[0]), total)
      {
        MergeLevel(levels, l, lent, schedule, least, total);
        l := l - 1;
      }
    }
  }

  /** The array starts with the keys `total` in order and ends as before. */
  ghost predicate Final(memory: Memory, before: seq<int>, total: multiset<int>) {
    && |memory| > 0 && |total| <= |memory[0]| == |before|
    && Sorted(memory[0][..|total|]) && multiset(memory[0][..|total|]) == total
    && memory[0][|total|..] == before[|total|..]
  }

  lemma ArrayKept(memory: Memory, nodes: seq<NodeData>, memory': Memory, level: Level, least: nat, total: multiset<int>)
    requires LevelReady(memory, nodes, level, least, total) && LevelMergeable(memory, nodes, level)
    requires Done(LevelJobs(memory, nodes, level, false), memory, memory')
    ensures memory'[0] == memory[0]
  {
    var jobs := LevelJobs(memory, nodes, level, false);
    forall p | 0 <= p < |jobs| ensures jobs[p].buf != 0 {
      assert PairReady(memory, nodes, level[p]) && OwnBuffers(nodes[level[p].left], level[p].left);
    }
    UnownedKept(memory, memory', jobs, 0);
  }

  /** Threads copy one chunk each, over the whole of buffer 0. */
  method CopyChunks(m: Memory, run: seq<int>, c: nat, k: nat, schedule: Scheduler) returns (m': Memory)
    requires |m| > 0 && |run| == |m[0]| && Fair(schedule) && ChunksFit(|run|, c, k)
    ensures |m'| == |m| && m'[0] == run
  {
    ChunksFlatten(run, c, k);
    var pieces := Chunks(run, c, k);
    var programs := TeamsPrograms(PieceJobs(pieces, 0), k);
    var sched := schedule(CopyStage, programs);
    PiecesResult(m, 0, pieces, sched);
    m' := Run(m, programs, sched);
  }

  /** Every node has threads, and its share gives each of them a chunk that is not empty. */
  ghost predicate SharedOut(n: nat, hwcs: seq<nat>) {
    && |hwcs| > 0 && n / |hwcs| > 0
    && forall x :: 0 <= x < |hwcs| ==> EnoughFor(n / |hwcs|, hwcs[x])
  }

  ghost predicate EnoughFor(nd: nat, k: nat) {
    k > 0 && 0 < ChunkUnit(MCTOP_SSE_K, k) <= nd / k
  }

  /** A share is enough for k threads when it gives each of them one unit: 4k keys, or 4 keys for 4 threads. */
  lemma EnoughIs(nd: nat, k: nat)
    ensures EnoughFor(nd, k) <==> k > 0 && nd / k >= if k == 4 then 4 else 4 * k
  {}

  /** In the first round all k threads of a node merge pieces 0 and 1, then 2 and 3, and so on. */
  ghost predicate FirstRoundEnds(ps: Runs, k: nat) {
    forall i, j :: 0 <= i < j < |ps| && j == i + 1 && i % 2 == 0 ==> SearchesEnd(ps[i], ps[j], k)
  }

  /** A node of several threads gets past its first round exactly when its share is enough for a
      chunk each. With empty chunks its threads search an empty side and never stop. */
  lemma FirstRoundEndsExactly(share: seq<int>, c: nat, k: nat)
    requires k > 1 && ChunkUnit(MCTOP_SSE_K, k) > 0
    requires c == |share| / k - (|share| / k) % ChunkUnit(MCTOP_SSE_K, k)
    ensures ChunksFit(|share|, c, k)
    ensures FirstRoundEnds(SortAll(Chunks(share, c, k)), k) <==> EnoughFor(|share|, k)
  {
    ChunkSize(|share|, MCTOP_SSE_K, k, c);
    var ps := SortAll(Chunks(share, c, k));
    SortedChunks(share, c, k);
    if EnoughFor(|share|, k) {
      forall i, j | 0 <= i < j < |ps| && j == i + 1 && i % 2 == 0 ensures SearchesEnd(ps[i], ps[j], k) {
        SearchesEndExactly(ps[i], ps[j], k);
      }
    } else {
      ChunkIs(share, c, k, 0);
      assert ps[0] == [] && !MergeInputs(ps[0], ps[1], k);
      SearchesEndExactly(ps[0], ps[1], k);
    }
  }

  /** The tree covers the nodes and no team is larger than what it has to merge. */
  ghost predicate TreeFits(levels: seq<Level>, ns: nat, nd: nat) {
    ValidTree(levels, ns) && forall l :: 0 <= l < |levels| ==> TeamsFit(levels[l], nd)
  }

  lemma EnoughForAll(node: NodeData, nd: nat, extra: nat, hwcs: seq<nat>, x: nat)
    requires x < |hwcs| && Assigned(node, nd, extra, |hwcs|, x) && EnoughFor(nd, hwcs[x])
    ensures ChunksUsable(node, hwcs[x])
  {
    DivMonotone(nd, node.nElems, hwcs[x]);
  }

  /** The node holds its part of the firsts, and nothing else counts. */
  ghost predicate Levelled(m: Memory, node: NodeData, firsts: Runs, nd: nat, x: nat) {
    x < |firsts| && node.nElems == nd && RunOf(m, node) == firsts[x] && Sorted(firsts[x]) && |firsts[x]| == nd
  }

  lemma LevelOne(m: Memory, node: NodeData, a: seq<int>, nd: nat, extra: nat, ns: nat, x: nat)
    requires SharesFit(|a|, nd, extra, ns) && x < ns && Assigned(node, nd, extra, ns, x)
    requires RunOf(m, node) == Sort(Share(a, nd, extra, ns, x)) && node.source < |m| && node.nElems <= |m[node.source]|
    ensures Levelled(m, node.(nElems := nd), Firsts(a, nd, extra, ns), nd, x)
  {
    var s := Sort(Share(a, nd, extra, ns, x));
    assert m[node.source][..nd] == s[..nd];
    SortedPiece(s, 0, nd);
    assert s[0..nd] == s[..nd];
  }

  ghost predicate AllLevelled(m: Memory, nodes: seq<NodeData>, firsts: Runs, nd: nat) {
    |firsts| == |nodes| && forall x :: 0 <= x < |nodes| ==> Levelled(m, nodes[x], firsts, nd, x)
  }

  lemma LevelledRuns(m: Memory, nodes: seq<NodeData>, firsts: Runs, nd: nat)
    requires AllLevelled(m, nodes, firsts, nd)
    ensures NodeRuns(m, nodes) == firsts
    ensures forall x :: 0 <= x < |firsts| ==> |firsts[x]| == nd && HoldsRun(m, nodes, x, nd)
  {
    forall x | 0 <= x < |nodes|
      ensures NodeRuns(m, nodes)[x] == firsts[x] && |firsts[x]| == nd && HoldsRun(m, nodes, x, nd)
    {
      assert Levelled(m, nodes[x], firsts, nd, x);
    }
  }

  lemma DeepestReady(m: Memory, nodes: seq<NodeData>, levels: seq<Level>, firsts: Runs, nd: nat, n: nat)
    requires Layout(m, nodes) && ValidTree(levels, |nodes|) && AllLevelled(m, nodes, firsts, nd) && |m[0]| == n
    requires ChunkStart(nd, |nodes|) <= n
    ensures Merging(Deepest(levels), |nodes|) && Below(Deepest(levels), |nodes|)
    ensures ChunkStart(nd, |Deepest(levels)|) <= n
    ensures LevelReady(m, nodes, levels[|levels| - 1], nd, multiset(Flatten(Picked(firsts, Deepest(levels)))))
  {
    var level := levels[|levels| - 1];
    assert ValidLevel(level, |nodes|);
    LevelledRuns(m, nodes, firsts, nd);
    PickedKeys(firsts, Nodes(level));
    PickedSize(firsts, Nodes(level), nd);
    NoMoreNodes(Nodes(level), |nodes|);
    FewerShares(nd, |Nodes(level)|, |nodes|);
    assert |multiset(Flatten(Picked(firsts, Nodes(level))))| == |Flatten(Picked(firsts, Nodes(level)))|;
  }

  lemma NoMoreNodes(nodes: seq<nat>, n: nat)
    requires Distinct(nodes) && Below(nodes, n)
    ensures |nodes| <= n
  {
    DistinctSet(nodes);
    SubsetSize(AsSet(nodes), NumbersBelow(n));
  }

  lemma FinalIs(m: Memory, a: seq<int>, firsts: Runs, nd: nat)
    requires Final(m, a, multiset(Flatten(firsts))) && forall i :: 0 <= i < |firsts| ==> |firsts[i]| == nd
    ensures ChunkStart(nd, |firsts|) <= |a|
    ensures m[0] == Sort(Flatten(firsts)) + a[ChunkStart(nd, |firsts|)..]
  {
    var f := Flatten(firsts);
    FirstsSize(firsts, nd, |firsts|);
    assert |multiset(f)| == |f|;
    SortedUnique(m[0][..|f|], Sort(f));
    assert m[0] == m[0][..|f|] + m[0][|f|..];
  }

  lemma SingleShare(a: seq<int>)
    requires |a| > 0 && SharesFit(|a|, |a|, 0, 1)
    ensures Share(a, |a|, 0, 1, 0) == a
  {}

  // ---------------------------------------------------------------- between nodes

  /** Node x has been told to sort its share of the array. */
  ghost predicate Assigned(nd: NodeData, size: nat, extra: nat, ns: nat, x: nat) {
    nd.start == ChunkStart(size, x) && nd.nElems == ShareSize(size, extra, ns, x)
  }

  /** The node's share is long enough for its threads to get a chunk each. */
  ghost predicate ChunksUsable(nd: NodeData, k: nat) {
    k > 0 && 0 < ChunkUnit(MCTOP_SSE_K, k) <= nd.nElems / k
  }

  lemma AssignedShare(memory: Memory, node: NodeData, a: seq<int>, nd: nat, extra: nat, ns: nat, x: nat)
    requires |memory| > 0 && memory[0] == a && SharesFit(|a|, nd, extra, ns) && x < ns
             && Assigned(node, nd, extra, ns, x)
    ensures HasShare(memory, node) && ShareOf(memory, node) == Share(a, nd, extra, ns, x)
  {
    ShareInside(|a|, nd, extra, ns, x);
  }

  lemma OthersKept(m: Memory, nodes: seq<NodeData>, m': Memory, nodes': seq<NodeData>, x: nat)
    requires OnlyNode(m, nodes, m', nodes', x) && Layout(m, nodes)
    ensures m'[0] == m[0]
    ensures forall y :: 0 <= y < |nodes| && y != x ==>
              nodes'[y] == nodes[y] && RunOf(m', nodes'[y]) == RunOf(m, nodes[y])
  {
    forall y | 0 <= y < |nodes| && y != x
      ensures nodes'[y] == nodes[y] && RunOf(m', nodes'[y]) == RunOf(m, nodes[y])
    {
      assert OwnBuffers(nodes[y], y);
    }
  }

  // -------------------------------------------------------------- inside a socket

  ghost predicate HasShare(memory: Memory, nd: NodeData) {
    |memory| > 0 && nd.start + nd.nElems <= |memory[0]|
  }

  /** The part of the array that node x sorts. */
  function ShareOf(memory: Memory, nd: NodeData): (s: seq<int>)
    requires HasShare(memory, nd)
    ensures |s| == nd.nElems
  {
    memory[0][nd.start..nd.start + nd.nElems]
  }

  /** Each thread describes its own chunk. */
  method DescribeChunks(n: nat, c: nat, k: nat, ghost ps: Runs) returns (parts: seq<Partition>)
    requires ChunkShaped(ps, n, c, k)
    ensures Describes(parts, ps)
  {
    parts := [];
    var t: nat := 0;
    while t < k
      invariant t <= k && |parts| == t
      invariant forall i :: 0 <= i < t ==> DescribesAt(parts[i], ps, i)
    {
      parts := parts + [ChunkDescriptor(n, c, k, t, ps)];
      t := t + 1;
    }
    AllDescribed(parts, ps);
  }

  function ChunkDescriptor(n: nat, c: nat, k: nat, t: nat, ghost ps: Runs): (p: Partition)
    requires ChunkShaped(ps, n, c, k) && t < k
    ensures DescribesAt(p, ps, t)
  {
    assert ChunkShapedAt(ps, n, c, k, t);
    Partition(ChunkStart(c, t), ChunkEnd(n, c, k, t) - ChunkStart(c, t))
  }

  /** All threads of a node fill its source buffer with their sorted chunks. */
  method FillChunks(m: Memory, buf: nat, share: seq<int>, c: nat, k: nat, x: nat, schedule: Scheduler)
    returns (m': Memory, parts: seq<Partition>, ghost ps: Runs, ghost trace: Program)
    requires buf < |m| && |share| <= |m[buf]| && Fair(schedule) && ChunksFit(|share|, c, k) && c >= k
    ensures OnlyBuffer(m, m', buf) && Laid(m'[buf], ps)
    ensures |ps| == k && AllSorted(ps) && Wide(ps, k) && Describes(parts, ps)
    ensures multiset(Flatten(ps)) == multiset(share) && |Flatten(ps)| == |share|
    ensures Traced(m, trace, m') && StaysIn(trace, buf, buf)
  {
    SortedChunks(share, c, k);
    SortedChunksShaped(share, c, k);
    var pieces := SortAll(Chunks(share, c, k));
    ps := pieces;
    var programs := TeamsPrograms(PieceJobs(pieces, buf), k);
    var sched := schedule(SortStage(x), programs);
    PiecesResult(m, buf, pieces, sched);
    PlaceOnly(m, buf, 0, Flatten(pieces));
    m' := Run(m, programs, sched);
    PhaseTraced(m, programs, sched);
    LinearStaysIn(programs, sched, buf, buf);
    trace := Linear(programs, sched);
    parts := DescribeChunks(|share|, c, k, pieces);
  }

  ghost predicate RoundReady(m: Memory, parts: seq<Partition>, src: nat, dest: nat, ps: Runs, n: nat) {
    && src < |m| && dest < |m| && |Flatten(ps)| <= |m[dest]|
    && Laid(m[src], ps) && Describes(parts, ps) && AllSorted(ps) && Wide(ps, n)
  }

  /** The node's source holds the pieces and its descriptors say where. */
  ghost predicate Described(m: Memory, nd: NodeData, ps: Runs, n: nat) {
    RoundReady(m, nd.partitions, nd.source, nd.destination, ps, n)
  }

  /** Only the two buffers of node x may differ, and they are `src` and `dest`. */
  ghost predicate Between(m: Memory, m': Memory, src: nat, dest: nat, x: nat) {
    && SameShape(m, m') && ((src == 2 * x + 1 && dest == 2 * x + 2) || (src == 2 * x + 2 && dest == 2 * x + 1))
    && forall b :: 0 <= b < |m| && b != src && b != dest ==> m'[b] == m[b]
  }

  ghost predicate Permuted(ps: Runs, qs: Runs) {
    multiset(Flatten(qs)) == multiset(Flatten(ps)) && |Flatten(qs)| == |Flatten(ps)|
  }

  /** Nothing but node x's descriptor and its two buffers has changed; share and owner are the same. */
  ghost predicate OnlyNode(m: Memory, nodes: seq<NodeData>, m': Memory, nodes': seq<NodeData>, x: nat) {
    && |nodes'| == |nodes| && x < |nodes| && SameShape(m, m')
    && (forall y :: 0 <= y < |nodes| && y != x ==> nodes'[y] == nodes[y])
    && nodes'[x].start == nodes[x].start && nodes'[x].nElems == nodes[x].nElems
    && (forall b :: 0 <= b < |m| && b != 2 * x + 1 && b != 2 * x + 2 ==> m'[b] == m[b])
  }

  /** The state of the rounds: `ps` permutes `ps0` and lies, described, in `src`. */
  ghost predicate Rounding(m0: Memory, m: Memory, parts: seq<Partition>, src: nat, dest: nat, x: nat,
                           ps0: Runs, ps: Runs, n: nat) {
    Between(m0, m, src, dest, x) && Permuted(ps0, ps) && RoundReady(m, parts, src, dest, ps, n)
  }

  lemma RoundKeeps(m0: Memory, m: Memory, parts: seq<Partition>, m': Memory, parts': seq<Partition>,
                   src: nat, dest: nat, x: nat, ps0: Runs, ps: Runs, n: nat)
    requires Rounding(m0, m, parts, src, dest, x, ps0, ps, n)
    requires OnlyBuffer(m, m', dest) && Laid(m'[dest], MergeAdjacent(ps)) && Describes(parts', MergeAdjacent(ps))
    ensures Rounding(m0, m', parts', dest, src, x, ps0, MergeAdjacent(ps), n)
  {
    MergeAdjacentKeeps(ps, n);
    HalfOf(ps);
  }

  method MergeRounds(m0: Memory, parts0: seq<Partition>, src0: nat, dest0: nat, x: nat, n: nat, nChunks: nat,
                     schedule: Scheduler, ghost ps0: Runs)
    returns (m: Memory, parts: seq<Partition>, src: nat, dest: nat, rounds: nat, ghost trace: Program)
    requires Fair(schedule) && nChunks == |ps0| > 0 && Rounding(m0, m0, parts0, src0, dest0, x, ps0, ps0, n)
    ensures rounds == RoundsFor(nChunks) && Between(m0, m, src, dest, x)
    ensures src < |m| && |Flatten(ps0)| <= |m[src]| && m[src][..|Flatten(ps0)|] == Sort(Flatten(ps0))
    ensures Traced(m0, trace, m) && StaysIn(trace, 2 * x + 1, 2 * x + 2)
  {
    m, parts, src, dest, rounds, trace := m0, parts0, src0, dest0, 0, [];
    var nPartitions := nChunks;
    ghost var ps := ps0;
    while nPartitions > 1
      invariant nPartitions == |ps| > 0 && rounds + RoundsFor(nPartitions) == RoundsFor(nChunks)
      invariant Rounding(m0, m, parts, src, dest, x, ps0, ps, n)
      invariant Traced(m0, trace, m) && StaysIn(trace, 2 * x + 1, 2 * x + 2)
    {
      ghost var last, lastParts := m, parts;
      ghost var round;
      m, parts, nPartitions, round :=
        MergeRound(m, parts, src, dest, nPartitions, n, schedule, RoundStage(x, rounds), ps);
      RoundKeeps(m0, last, lastParts, m, parts, src, dest, x, ps0, ps, n);
      TracedAppend(m0, trace, last, round, m);
      trace := trace + round;
      ps := MergeAdjacent(ps);
      src, dest := dest, src;
      rounds := rounds + 1;
    }
    OneRunLeft(m[src], ps0, ps);
  }

  lemma HalfOf(ps: Runs)
    ensures multiset(Flatten(MergeAdjacent(ps))) == multiset(Flatten(ps))
    ensures |Flatten(MergeAdjacent(ps))| == |Flatten(ps)|
  {
    MergeAdjacentKeys(ps, |ps| / 2);
  }

  lemma OneRunLeft(mem: seq<int>, ps0: Runs, ps: Runs)
    requires |ps| == 1 && Permuted(ps0, ps) && AllSorted(ps) && Laid(mem, ps)
    ensures |Flatten(ps0)| <= |mem| && mem[..|Flatten(ps0)|] == Sort(Flatten(ps0))
  {
    SingleRun(ps);
    SortedUnique(Flatten(ps), Sort(Flatten(ps0)));
  }
}
