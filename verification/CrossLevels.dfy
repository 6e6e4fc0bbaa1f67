/** One level of the cross-socket merge: all pairs merge at once, then the leaders of
    the nodes taking part swap their buffers. */
module CrossLevels {
  import opened SortedSeqs
  import opened Phases
  import opened ParallelMerge
  import opened MergeJobs
  import opened SocketMerge
  import opened NodeTrees
  import opened CrossSocket

  /** A node's descriptor; buffers are indices into the memory. */
  datatype NodeData = NodeData(start: nat, nElems: nat, source: nat, destination: nat, partitions: seq<Partition>)

  /** Buffer 0 is the array to sort; node x owns buffers 2x+1 and 2x+2. */
  ghost predicate OwnBuffers(nd: NodeData, x: nat) {
    (nd.source == 2 * x + 1 && nd.destination == 2 * x + 2) || (nd.source == 2 * x + 2 && nd.destination == 2 * x + 1)
  }

  ghost predicate Layout(memory: Memory, nodes: seq<NodeData>) {
    && |memory| == 1 + 2 * |nodes|
    && (forall b :: 0 <= b < |memory| ==> |memory[b]| == |memory[0]|)
    && (forall x :: 0 <= x < |nodes| ==> OwnBuffers(nodes[x], x))
  }

  /** The keys a node holds at the front of its source buffer. */
  function RunOf(memory: Memory, nd: NodeData): (r: seq<int>) {
    if nd.source < |memory| && nd.nElems <= |memory[nd.source]| then memory[nd.source][..nd.nElems] else []
  }

  function NodeRuns(memory: Memory, nodes: seq<NodeData>): (rs: seq<seq<int>>)
    ensures |rs| == |nodes| && forall x :: 0 <= x < |nodes| ==> rs[x] == RunOf(memory, nodes[x])
  {
    seq(|nodes|, x requires 0 <= x < |nodes| => RunOf(memory, nodes[x]))
  }

  // ------------------------------------------------------- several jobs in one phase

  ghost predicate Fits(j: Job, m: Memory) {
    j.buf < |m| && j.base + |j.keys| <= |m[j.buf]|
  }

  ghost predicate AllFit(jobs: seq<Job>, m: Memory) {
    forall j :: 0 <= j < |jobs| ==> Fits(jobs[j], m)
  }

  ghost predicate Apart(jobs: seq<Job>) {
    forall i, j :: 0 <= i < j < |jobs| ==> jobs[i].buf != jobs[j].buf
  }

  /** `m` with the first j jobs' keys in place. */
  ghost function PlaceAll(m: Memory, jobs: seq<Job>, j: nat): (m': Memory)
    requires j <= |jobs| && AllFit(jobs, m)
    ensures SameShape(m, m')
  {
    if j == 0 then m else Place(PlaceAll(m, jobs, j - 1), jobs[j - 1].buf, jobs[j - 1].base, jobs[j - 1].keys)
  }

  lemma {:induction false} PlacedAt(m: Memory, jobs: seq<Job>, i: nat, j: nat)
    requires i < j <= |jobs| && AllFit(jobs, m) && Apart(jobs)
    ensures Finished(jobs[i], PlaceAll(m, jobs, j))
  {
    if i < j - 1 {
      PlacedAt(m, jobs, i, j - 1);
    }
  }

  lemma {:induction false} PlacedKept(m: Memory, jobs: seq<Job>, j: nat, b: nat, k: nat)
    requires j <= |jobs| && AllFit(jobs, m) && b < |m| && k < |m[b]|
    ensures PlaceAll(m, jobs, j)[b][k] == m[b][k] || exists i :: 0 <= i < j && jobs[i].Owns(b, k)
  {
    if j > 0 { PlacedKept(m, jobs, j - 1, b, k); }
  }

  lemma PlaceAllDone(m: Memory, jobs: seq<Job>)
    requires AllFit(jobs, m) && Apart(jobs)
    ensures Done(jobs, m, PlaceAll(m, jobs, |jobs|))
  {
    var goal := PlaceAll(m, jobs, |jobs|);
    forall j | 0 <= j < |jobs| ensures Finished(jobs[j], goal) { PlacedAt(m, jobs, j, |jobs|); }
    forall b, k | 0 <= b < |m| && 0 <= k < |m[b]| ensures Kept(jobs, m, goal, b, k) {
      PlacedKept(m, jobs, |jobs|, b, k);
    }
  }

  /** Teams on disjoint buffers leave every job done, whatever the interleaving. */
  lemma TeamsResult(m: Memory, jobs: seq<Job>, sched: seq<nat>)
    requires AllFit(jobs, m) && Apart(jobs) && AllGood(jobs) && Complete(TeamsPrograms(jobs, |jobs|), sched)
    ensures AllInBounds(TeamsPrograms(jobs, |jobs|), m)
    ensures Done(jobs, m, Run(m, TeamsPrograms(jobs, |jobs|), sched))
  {
    PlaceAllDone(m, jobs);
    TeamsStaff(jobs);
    JobsDone(jobs, m, PlaceAll(m, jobs, |jobs|), TeamsPrograms(jobs, |jobs|), sched);
  }

  /** A buffer no job writes is as before. */
  lemma UnownedKept(m: Memory, m': Memory, jobs: seq<Job>, b: nat)
    requires Done(jobs, m, m') && b < |m| && forall j :: 0 <= j < |jobs| ==> jobs[j].buf != b
    ensures m'[b] == m[b]
  {
    forall k | 0 <= k < |m[b]| ensures m'[b][k] == m[b][k] { assert Kept(jobs, m, m', b, k); }
  }

  // ------------------------------------------------------------ the jobs of a level

  /** A pair can be merged by its team. */
  ghost predicate PairReady(memory: Memory, nodes: seq<NodeData>, pair: Pair) {
    && pair.left < |nodes| && pair.right < |nodes|
    && Sorted(RunOf(memory, nodes[pair.left])) && Sorted(RunOf(memory, nodes[pair.right]))
    && MergeInputs(RunOf(memory, nodes[pair.left]), RunOf(memory, nodes[pair.right]), pair.nHwcs)
  }

  /** Level 0 merges into the array, every other level into the destination node's buffer. */
  function PairJob(memory: Memory, nodes: seq<NodeData>, pair: Pair, top: bool): (j: Job)
    requires PairReady(memory, nodes, pair)
  {
    MergeJob(RunOf(memory, nodes[pair.left]), RunOf(memory, nodes[pair.right]), pair.nHwcs,
             if top then 0 else nodes[pair.left].destination, 0)
  }

  ghost predicate LevelMergeable(memory: Memory, nodes: seq<NodeData>, level: Level) {
    forall p :: 0 <= p < |level| ==> PairReady(memory, nodes, level[p])
  }

  function LevelJobs(memory: Memory, nodes: seq<NodeData>, level: Level, top: bool): (jobs: seq<Job>)
    requires LevelMergeable(memory, nodes, level)
    ensures |jobs| == |level|
    ensures forall p :: 0 <= p < |level| ==> jobs[p] == PairJob(memory, nodes, level[p], top)
  {
    seq(|level|, p requires 0 <= p < |level| => PairJob(memory, nodes, level[p], top))
  }

  lemma LevelJobsGood(memory: Memory, nodes: seq<NodeData>, level: Level, top: bool)
    requires LevelMergeable(memory, nodes, level)
    ensures AllGood(LevelJobs(memory, nodes, level, top))
  {
    var jobs := LevelJobs(memory, nodes, level, top);
    forall p | 0 <= p < |jobs| ensures jobs[p].Good() {
      assert PairReady(memory, nodes, level[p]);
      var pair := level[p];
      MergeJobGood(RunOf(memory, nodes[pair.left]), RunOf(memory, nodes[pair.right]), pair.nHwcs,
                   if top then 0 else nodes[pair.left].destination, 0);
    }
  }

  /** Every node of the level holds a sorted run of at least `least` keys, and together
      the nodes hold `total`. */
  ghost predicate LevelReady(memory: Memory, nodes: seq<NodeData>, level: Level, least: nat, total: multiset<int>) {
    && Layout(memory, nodes) && ValidLevel(level, |nodes|)
    && (forall x :: x in Nodes(level) ==> HoldsRun(memory, nodes, x, least))
    && KeysOf(NodeRuns(memory, nodes), Nodes(level)) == total && |total| <= |memory[0]|
  }

  ghost predicate HoldsRun(memory: Memory, nodes: seq<NodeData>, x: nat, least: nat) {
    && x < |nodes| && Sorted(RunOf(memory, nodes[x])) && |RunOf(memory, nodes[x])| == nodes[x].nElems
    && least <= nodes[x].nElems
  }

  /** Each team has at least a thread, and not more threads than keys to merge. */
  ghost predicate TeamsFit(level: Level, least: nat) {
    least > 0 && forall p :: 0 <= p < |level| ==> 0 < level[p].nHwcs <= 2 * least
  }

  lemma PairHoldsRuns(memory: Memory, nodes: seq<NodeData>, level: Level, least: nat, total: multiset<int>, p: nat)
    requires LevelReady(memory, nodes, level, least, total) && p < |level|
    ensures HoldsRun(memory, nodes, level[p].left, least) && HoldsRun(memory, nodes, level[p].right, least)
    ensures nodes[level[p].left].nElems + nodes[level[p].right].nElems <= |memory[0]|
  {
    assert level[p].Has(level[p].left) && level[p].Has(level[p].right);
    NodeInPair(level, |level|, level[p].left);
    NodeInPair(level, |level|, level[p].right);
    PairFits(NodeRuns(memory, nodes), level, |level|, p);
  }

  lemma ReadyIsMergeable(memory: Memory, nodes: seq<NodeData>, level: Level, least: nat, total: multiset<int>)
    requires LevelReady(memory, nodes, level, least, total) && TeamsFit(level, least)
    ensures LevelMergeable(memory, nodes, level)
  {
    forall p | 0 <= p < |level| ensures PairReady(memory, nodes, level[p]) {
      PairHoldsRuns(memory, nodes, level, least, total, p);
    }
  }

  lemma LevelJobsApart(memory: Memory, nodes: seq<NodeData>, level: Level, top: bool)
    requires Layout(memory, nodes) && ValidLevel(level, |nodes|) && LevelMergeable(memory, nodes, level)
    requires top ==> |level| == 1
    ensures Apart(LevelJobs(memory, nodes, level, top))
  {
    var jobs := LevelJobs(memory, nodes, level, top);
    forall i, j | 0 <= i < j < |jobs| ensures jobs[i].buf != jobs[j].buf {
      PairsApart(level, i, j, level[i].left);
      assert OwnBuffers(nodes[level[i].left], level[i].left) && OwnBuffers(nodes[level[j].left], level[j].left);
    }
  }

  lemma LevelJobsFit(memory: Memory, nodes: seq<NodeData>, level: Level, top: bool, least: nat, total: multiset<int>)
    requires LevelReady(memory, nodes, level, least, total) && LevelMergeable(memory, nodes, level)
    ensures AllFit(LevelJobs(memory, nodes, level, top), memory)
  {
    var jobs := LevelJobs(memory, nodes, level, top);
    forall p | 0 <= p < |jobs| ensures Fits(jobs[p], memory) {
      PairHoldsRuns(memory, nodes, level, least, total, p);
      assert OwnBuffers(nodes[level[p].left], level[p].left);
    }
  }

  /** What a level's phase leaves: every job done, whatever the interleaving. */
  lemma LevelPhase(memory: Memory, nodes: seq<NodeData>, level: Level, top: bool, least: nat, total: multiset<int>,
                   sched: seq<nat>)
    requires LevelReady(memory, nodes, level, least, total) && TeamsFit(level, least) && (top ==> |level| == 1)
    requires LevelMergeable(memory, nodes, level)
    requires Complete(TeamsPrograms(LevelJobs(memory, nodes, level, top), |level|), sched)
    ensures AllInBounds(TeamsPrograms(LevelJobs(memory, nodes, level, top), |level|), memory)
    ensures Done(LevelJobs(memory, nodes, level, top), memory,
                 Run(memory, TeamsPrograms(LevelJobs(memory, nodes, level, top), |level|), sched))
  {
    LevelJobsGood(memory, nodes, level, top);
    LevelJobsApart(memory, nodes, level, top);
    LevelJobsFit(memory, nodes, level, top, least, total);
    TeamsResult(memory, LevelJobs(memory, nodes, level, top), sched);
  }

  // ----------------------------------------------------------- the leaders' updates

  function Swapped(nd: NodeData, size: nat): NodeData {
    nd.(nElems := size, source := nd.destination, destination := nd.source)
  }

  ghost predicate SameOwner(nd: NodeData, nd': NodeData, x: nat) {
    OwnBuffers(nd, x) ==> OwnBuffers(nd', x)
  }

  /** Node x takes part in pair p's merge: helpers do when idle nodes lend their threads. */
  ghost predicate TakesPart(level: Level, lent: bool, p: nat, x: nat) {
    p < |level| && (level[p].Has(x) || (lent && x in level[p].helpers))
  }

  /** How many keys a pair has merged. */
  function PairSize(nodes: seq<NodeData>, pair: Pair): nat {
    if pair.left < |nodes| && pair.right < |nodes| then nodes[pair.left].nElems + nodes[pair.right].nElems else 0
  }

  /** A node takes part in one pair's merge only. */
  lemma OnePair(level: Level, n: nat, lent: bool, p: nat, q: nat, x: nat)
    requires ValidLevel(level, n) && TakesPart(level, lent, p, x) && TakesPart(level, lent, q, x)
    ensures p == q && x < n
  {
    NodeInPair(level, |level|, x);
    assert HelpersOutside(level, level[p].helpers, n) && HelpersOutside(level, level[q].helpers, n);
    assert Unshared(level, p, q);
    if level[p].Has(x) && level[q].Has(x) {
      if p < q { PairsApart(level, p, q, x); }
      if q < p { PairsApart(level, q, p, x); }
    }
  }

  /** The helpers' leaders swap their buffers as well. */
  method SwapHelpers(nodes: seq<NodeData>, helpers: seq<nat>, size: nat) returns (nodes': seq<NodeData>)
    requires Below(helpers, |nodes|) && Distinct(helpers)
    ensures |nodes'| == |nodes|
    ensures forall x :: 0 <= x < |nodes| ==> nodes'[x] == if x in helpers then Swapped(nodes[x], size) else nodes[x]
  {
    nodes' := nodes;
    var h: nat := 0;
    while h < |helpers|
      invariant h <= |helpers| && |nodes'| == |nodes|
      invariant forall x :: 0 <= x < |nodes| ==>
                  nodes'[x] == if x in helpers[..h] then Swapped(nodes[x], size) else nodes[x]
    {
      assert helpers[h] in helpers && helpers[h] !in helpers[..h];
      assert helpers[..h + 1] == helpers[..h] + [helpers[h]];
      nodes' := nodes'[helpers[h] := Swapped(nodes'[helpers[h]], size)];
      h := h + 1;
    }
    assert helpers[..h] == helpers;
  }

  method SwapPair(nodes: seq<NodeData>, level: Level, p: nat, lent: bool, size: nat) returns (nodes': seq<NodeData>)
    requires ValidLevel(level, |nodes|) && p < |level|
    ensures |nodes'| == |nodes|
    ensures forall x :: 0 <= x < |nodes| ==>
              nodes'[x] == if TakesPart(level, lent, p, x) then Swapped(nodes[x], size) else nodes[x]
  {
    var left, right := level[p].left, level[p].right;
    assert level[p].Has(left) && level[p].Has(right);
    NodeInPair(level, |level|, left);
    NodeInPair(level, |level|, right);
    NodesAt(level, p, |level|);
    assert Nodes(level)[2 * p] != Nodes(level)[2 * p + 1];
    assert HelpersOutside(level, level[p].helpers, |nodes|);
    nodes' := nodes;
    if lent { nodes' := SwapHelpers(nodes, level[p].helpers, size); }
    nodes' := nodes'[left := Swapped(nodes'[left], size)];
    nodes' := nodes'[right := Swapped(nodes'[right], size)];
  }

  /** The leaders of the first p pairs' nodes have made their updates. */
  ghost predicate SwappedTo(nodes: seq<NodeData>, nodes': seq<NodeData>, level: Level, lent: bool, p: nat) {
    && |nodes'| == |nodes|
    && (forall q, x :: 0 <= q < p && 0 <= x < |nodes| && TakesPart(level, lent, q, x) ==>
          nodes'[x] == Swapped(nodes[x], PairSize(nodes, level[q])))
    && (forall x :: 0 <= x < |nodes| && (forall q :: 0 <= q < p ==> !TakesPart(level, lent, q, x)) ==>
          nodes'[x] == nodes[x])
  }

  lemma SwapMore(nodes: seq<NodeData>, before: seq<NodeData>, nodes': seq<NodeData>, level: Level, lent: bool, p: nat)
    requires ValidLevel(level, |nodes|) && p < |level| && SwappedTo(nodes, before, level, lent, p)
    requires |nodes'| == |nodes| && forall x :: 0 <= x < |nodes| ==>
               nodes'[x] == if TakesPart(level, lent, p, x) then Swapped(before[x], PairSize(nodes, level[p]))
                            else before[x]
    ensures SwappedTo(nodes, nodes', level, lent, p + 1)
  {
    forall q, x | 0 <= q < p + 1 && 0 <= x < |nodes| && TakesPart(level, lent, q, x)
      ensures nodes'[x] == Swapped(nodes[x], PairSize(nodes, level[q]))
    {
      if TakesPart(level, lent, p, x) {
        OnePair(level, |nodes|, lent, p, q, x);
        forall r | 0 <= r < p ensures !TakesPart(level, lent, r, x) {
          if TakesPart(level, lent, r, x) { OnePair(level, |nodes|, lent, p, r, x); }
        }
      }
    }
  }

  /** After the second barrier of a level every leader that took part records the size
      of its pair's merge and swaps its buffers; the other nodes are as before. */
  method SwapLeaders(nodes: seq<NodeData>, level: Level, lent: bool) returns (nodes': seq<NodeData>)
    requires ValidLevel(level, |nodes|)
    ensures SwappedTo(nodes, nodes', level, lent, |level|)
    ensures forall x :: 0 <= x < |nodes| ==> SameOwner(nodes[x], nodes'[x], x)
    ensures forall p :: 0 <= p < |level| ==> LeftSwapped(nodes, nodes', level[p])
  {
    nodes' := nodes;
    var p: nat := 0;
    while p < |level|
      invariant p <= |level| && SwappedTo(nodes, nodes', level, lent, p)
    {
      ghost var before := nodes';
      nodes' := SwapPair(nodes', level, p, lent, PairSize(nodes, level[p]));
      SwapMore(nodes, before, nodes', level, lent, p);
      p := p + 1;
    }
    SwappedAll(nodes, nodes', level, lent);
  }

  lemma SwappedAll(nodes: seq<NodeData>, nodes': seq<NodeData>, level: Level, lent: bool)
    requires ValidLevel(level, |nodes|) && SwappedTo(nodes, nodes', level, lent, |level|)
    ensures forall x :: 0 <= x < |nodes| ==> SameOwner(nodes[x], nodes'[x], x)
    ensures forall p :: 0 <= p < |level| ==> LeftSwapped(nodes, nodes', level[p])
  {
    forall x | 0 <= x < |nodes| ensures SameOwner(nodes[x], nodes'[x], x) {
      if q :| 0 <= q < |level| && TakesPart(level, lent, q, x) {
        assert nodes'[x] == Swapped(nodes[x], PairSize(nodes, level[q]));
      }
    }
    forall p | 0 <= p < |level| ensures LeftSwapped(nodes, nodes', level[p]) {
      assert level[p].Has(level[p].left) && level[p].Has(level[p].right);
      NodeInPair(level, |level|, level[p].left);
      NodeInPair(level, |level|, level[p].right);
      assert TakesPart(level, lent, p, level[p].left);
    }
  }

  ghost predicate LeftSwapped(nodes: seq<NodeData>, nodes': seq<NodeData>, pair: Pair) {
    && pair.left < |nodes| == |nodes'| && pair.right < |nodes|
    && nodes'[pair.left] == Swapped(nodes[pair.left], nodes[pair.left].nElems + nodes[pair.right].nElems)
  }

  // ------------------------------------------------------------- from level to level

  lemma PairResult(memory: Memory, nodes: seq<NodeData>, memory': Memory, nodes': seq<NodeData>, level: Level,
                   least: nat, total: multiset<int>, p: nat)
    requires LevelReady(memory, nodes, level, least, total) && LevelMergeable(memory, nodes, level) && p < |level|
    requires Done(LevelJobs(memory, nodes, level, false), memory, memory') && LeftSwapped(nodes, nodes', level[p])
    ensures PairMerged(NodeRuns(memory, nodes), NodeRuns(memory', nodes'), level[p])
    ensures HoldsRun(memory', nodes', level[p].left, least)
  {
    var job := LevelJobs(memory, nodes, level, false)[p];
    var l, r := level[p].left, level[p].right;
    PairHoldsRuns(memory, nodes, level, least, total, p);
    assert OwnBuffers(nodes[l], l);
    assert Finished(job, memory');
    MergeSorted(RunOf(memory, nodes[l]), RunOf(memory, nodes[r]));
  }

  lemma PairsMerged(memory: Memory, nodes: seq<NodeData>, memory': Memory, nodes': seq<NodeData>, deeper: Level,
                    least: nat, total: multiset<int>, runs: seq<seq<int>>, runs': seq<seq<int>>)
    requires LevelReady(memory, nodes, deeper, least, total) && LevelMergeable(memory, nodes, deeper)
    requires Done(LevelJobs(memory, nodes, deeper, false), memory, memory')
    requires forall p :: 0 <= p < |deeper| ==> LeftSwapped(nodes, nodes', deeper[p])
    requires runs == NodeRuns(memory, nodes) && runs' == NodeRuns(memory', nodes')
    ensures forall p :: 0 <= p < |deeper| ==> PairMerged(runs, runs', deeper[p])
  {
    forall p | 0 <= p < |deeper| ensures PairMerged(runs, runs', deeper[p]) {
      PairResult(memory, nodes, memory', nodes', deeper, least, total, p);
    }
  }

  lemma DestinationsHold(memory: Memory, nodes: seq<NodeData>, memory': Memory, nodes': seq<NodeData>, deeper: Level,
                         level: Level, least: nat, total: multiset<int>)
    requires LevelReady(memory, nodes, deeper, least, total) && LevelMergeable(memory, nodes, deeper)
    requires Done(LevelJobs(memory, nodes, deeper, false), memory, memory')
    requires forall p :: 0 <= p < |deeper| ==> LeftSwapped(nodes, nodes', deeper[p])
    requires LeadsTo(deeper, level)
    ensures forall x :: x in Nodes(level) ==> HoldsRun(memory', nodes', x, least)
  {
    forall x | x in Nodes(level) ensures HoldsRun(memory', nodes', x, least) {
      DestinationHolds(memory, nodes, memory', nodes', deeper, level, least, total, x);
    }
  }

  /** All keys of a level are at the nodes above it. */
  lemma KeysUp(memory: Memory, nodes: seq<NodeData>, memory': Memory, nodes': seq<NodeData>, deeper: Level,
               level: Level, least: nat, total: multiset<int>)
    requires LevelReady(memory, nodes, deeper, least, total) && LevelMergeable(memory, nodes, deeper)
    requires Done(LevelJobs(memory, nodes, deeper, false), memory, memory')
    requires |nodes'| == |nodes| && forall p :: 0 <= p < |deeper| ==> LeftSwapped(nodes, nodes', deeper[p])
    requires LeadsTo(deeper, level) && Below(Nodes(level), |nodes|)
    ensures KeysOf(NodeRuns(memory', nodes'), Nodes(level)) == total
  {
    var runs, runs' := NodeRuns(memory, nodes), NodeRuns(memory', nodes');
    PairsMerged(memory, nodes, memory', nodes', deeper, least, total, runs, runs');
    KeysMoveUp(runs, runs', deeper, level);
  }

  lemma LayoutKept(memory: Memory, nodes: seq<NodeData>, memory': Memory, nodes': seq<NodeData>)
    requires Layout(memory, nodes) && SameShape(memory, memory') && |nodes'| == |nodes|
    requires forall x :: 0 <= x < |nodes| ==> SameOwner(nodes[x], nodes'[x], x)
    ensures Layout(memory', nodes')
  {
    forall x | 0 <= x < |nodes| ensures OwnBuffers(nodes'[x], x) { assert SameOwner(nodes[x], nodes'[x], x); }
    forall b | 0 <= b < |memory'| ensures |memory'[b]| == |memory'[0]| { assert |memory[b]| == |memory[0]|; }
  }

  lemma LevelUp(memory: Memory, nodes: seq<NodeData>, memory': Memory, nodes': seq<NodeData>, deeper: Level,
                level: Level, least: nat, total: multiset<int>)
    requires LevelReady(memory, nodes, deeper, least, total) && LevelMergeable(memory, nodes, deeper)
    requires Done(LevelJobs(memory, nodes, deeper, false), memory, memory')
    requires |nodes'| == |nodes| && forall x :: 0 <= x < |nodes| ==> SameOwner(nodes[x], nodes'[x], x)
    requires forall p :: 0 <= p < |deeper| ==> LeftSwapped(nodes, nodes', deeper[p])
    requires LeadsTo(deeper, level) && ValidLevel(level, |nodes|)
    ensures LevelReady(memory', nodes', level, least, total)
  {
    LayoutKept(memory, nodes, memory', nodes');
    KeysUp(memory, nodes, memory', nodes', deeper, level, least, total);
    DestinationsHold(memory, nodes, memory', nodes', deeper, level, least, total);
  }

  lemma DestinationHolds(memory: Memory, nodes: seq<NodeData>, memory': Memory, nodes': seq<NodeData>,
                         deeper: Level, level: Level, least: nat, total: multiset<int>, x: nat)
    requires LevelReady(memory, nodes, deeper, least, total) && LevelMergeable(memory, nodes, deeper)
    requires Done(LevelJobs(memory, nodes, deeper, false), memory, memory')
    requires forall p :: 0 <= p < |deeper| ==> LeftSwapped(nodes, nodes', deeper[p])
    requires LeadsTo(deeper, level) && x in Nodes(level)
    ensures HoldsRun(memory', nodes', x, least)
  {
    var p := DestinationOf(deeper, level, x);
    PairResult(memory, nodes, memory', nodes', deeper, least, total, p);
  }

  /** A node of a level is the destination of some pair of the level below. */
  lemma DestinationOf(deeper: Level, level: Level, x: nat) returns (p: nat)
    requires LeadsTo(deeper, level) && x in Nodes(level)
    ensures p < |deeper| && deeper[p].left == x
  {
    assert x in multiset(Nodes(level)) && x in multiset(Lefts(deeper)) && x in Lefts(deeper);
    var q :| 0 <= q < |deeper| && Lefts(deeper)[q] == x;
    p := q;
  }

  lemma SinglePairKeys(runs: seq<seq<int>>, level: Level)
    requires |level| == 1 && Below(Nodes(level), |runs|)
    ensures level[0].left < |runs| && level[0].right < |runs|
    ensures KeysOf(runs, Nodes(level)) == multiset(runs[level[0].left]) + multiset(runs[level[0].right])
  {
    var l, r := level[0].left, level[0].right;
    assert Nodes(level) == ([] + [l]) + [r];
    assert l in Nodes(level) && r in Nodes(level);
    KeysOfAppend(runs, [], l);
    KeysOfAppend(runs, [] + [l], r);
  }

  lemma OneJobResult(m: Memory, m': Memory, job: Job)
    requires Done([job], m, m') && job.buf == 0 && job.base == 0
    ensures |m| > 0 && |job.keys| <= |m'[0]| == |m[0]|
    ensures m'[0][..|job.keys|] == job.keys && m'[0][|job.keys|..] == m[0][|job.keys|..]
  {
    assert [job][0] == job && Finished(job, m');
    forall k | |job.keys| <= k < |m[0]| ensures m'[0][k] == m[0][k] { assert Kept([job], m, m', 0, k); }
  }

  /** After level 0 the array starts with all keys in order; the rest of it is as before. */
  lemma TopResult(memory: Memory, nodes: seq<NodeData>, memory': Memory, level: Level, least: nat, total: multiset<int>)
    requires LevelReady(memory, nodes, level, least, total) && LevelMergeable(memory, nodes, level) && |level| == 1
    requires Done(LevelJobs(memory, nodes, level, true), memory, memory')
    ensures |total| <= |memory'[0]| == |memory[0]|
    ensures Sorted(memory'[0][..|total|]) && multiset(memory'[0][..|total|]) == total
    ensures memory'[0][|total|..] == memory[0][|total|..]
  {
    var jobs := LevelJobs(memory, nodes, level, true);
    var a, b := RunOf(memory, nodes[level[0].left]), RunOf(memory, nodes[level[0].right]);
    PairHoldsRuns(memory, nodes, level, least, total, 0);
    SinglePairKeys(NodeRuns(memory, nodes), level);
    MergeSorted(a, b);
    MergeMultiset(a, b);
    assert |multiset(a) + multiset(b)| == |a| + |b|;
    assert jobs == [jobs[0]];
    OneJobResult(memory, memory', jobs[0]);
  }
}
