# mctop: a verification model

mctop discovers the topology of a NUMA machine, places threads on it, and builds a
parallel merge sort and work queues on top. These modules model the parts in which
several functions, threads or phases have to fit together, and prove what they promise
for all inputs, all schedules and all reachable states.

`dafny verify dfyconfig.toml` checks everything.

## What is modelled

**Parallel merge and sort.** `ParallelMerge` is the co-ranking of
`merge_arrays_no_sse`: two binary searches per thread, with `<=` in the start search and
`<` in the end search, and signed slice lengths. Under ties neighbouring slices overlap
(`OverlappingSlices`), yet every store of every thread puts the key the sequential merge
has at that rank, so any interleaving gives the merge. `MergeUtils` is the array code.
`SseMerge` and `SseUtils` are the 4-wide network and the block stream over any such
network, also when a side has no whole block. `SseOutcome` is the unaligned merge with its
aligning prefix and bubbled tails as a function of the inputs, the alignment and what lies
behind the sides, and says exactly when it is a merge; `SseUnaligned` is its array code.
`Phases` and `MergeJobs` describe a parallel phase between two barriers: every thread has
a list of stores, a schedule interleaves them. `Traces` interleaves the stores of nodes that
do not wait for each other. `Pieces`, `SocketMerge`, `SocketRounds`,
`Chunking`, `NodeTrees`, `CrossSocket`, `CrossLevels`, `SortSpec` and `MctopSort` build the
whole sort from it, and `TreeBuilder`, `TreeWork` and `SortOnTree` the tree of sockets it
follows; `TeamThreads` shows that a team's merge ids are its threads, and when a thread that
leaves is not wanted again. What the sort leaves
in the array is the function `SortResult`, on the parallel path `Outcome`; over the tree of any
number of sockets it is the sorted array for every input of a length exactly when one thread
sorts it, or the number of sockets is a power of two and divides the length
(`SortsOnTreeExactly`).

**Work queues.** `WorkQueue` steps the spin-locked linked queues one shared access at a
time and refines one atomic FIFO per queue; `QueueRuns` lifts that to linearizability of
whole runs, real-time order included, and from there to what the threads got and put. `SortProtocol` is the client of
`tests/work_queue_sort.c` over atomic queues, `QueueSort` the same client over the
fine-grained queues. `SortProgress` and `QueueProgress` show that neither can be trapped:
every run can be continued until all threads have finished. `StealOrder` builds the stealing
orders the client relies on, `WqTopology` does so on a topology the library has built, and
`WqMerge` is the client's merge of two items.

**Topology.** `LatencyTable` states what the inference expects of a latency table,
`TopologyTree` and `Topology` build the tree of groups level by level, and `TopologyQuery`
adds the cross-socket links and the query for any two nodes: the built topology answers the
table it was built from. `Clustering` is the clustering of measured latencies that comes before, and
its search for a sensitivity.

**Placement.** `Placement` hands out hardware contexts by the minimum-latency and
round-robin policies, `SlotAlloc` is the pinning of threads to slots by compare-and-swap,
`Barrier2` the two-thread barrier on recycled counters.

### Reading the model

- Memory is sequentially consistent and a pthread barrier separates phases. Inside a
  phase no thread reads a buffer that the phase writes, so a thread's stores depend only
  on the memory at the start of the phase. A scheduler that picks the interleaving of each
  phase is a parameter, so a theorem about `MctopSort` is about all runs (`FairExists`
  shows that there are such schedulers). Before the first cross-socket barrier the nodes do not
  wait for each other. A node's threads read the array and the node's two buffers and write these
  two; they are written one node after the other, and `SortNodes` promises that every interleaving
  of the nodes' stores leaves the same memory.
- A node that the tree leaves out may still be sorting while level 0 writes the array. Whatever it
  finds there, it stores to its own two buffers only, and no level reads these, so what the sort
  leaves in the array does not depend on it.
- `std::sort` and `qsort` are the function `Sort` of `SortedSeqs`. The comparator of the
  queue sort subtracts; it is modelled as the order of the keys.
- Integers are unbounded. Slice sizes are signed, as in `merge_arrays_no_sse`. Counters
  that wrap by design (`Barrier2`) wrap at 32 bits.
- The lock word of a queue carries the thread whose compare-and-swap set it; a failing one
  leaves the state as it is. `size++` and `size--` happen under the lock and are one step.
- A socket in the node tree is known by its position in the allocation, and a context in
  `Placement` by its place; the library's identifiers are unique names for these.
- Keys are any integers. The 4-wide network compares lanes as floats, the scalar loops
  compare keys as integers; the model has one order, so it is about keys on which the two
  orders agree, such as the non-negative floats' bit patterns.
- What a 16-byte load finds behind a side, and a key read in front of the destination, are
  parameters of the SSE merge; what its last store puts behind the destination is returned.
- A queue's stealing order covers all queues exactly when no socket is strictly closer than the
  socket is to itself (`StealOrder.QueueOrder`), which holds on every topology the library builds
  (`WqTopology.CreateQueues`). The proofs about the queue sort assume such orders.
- `aligned` in `SseOutcome` says at which cursors all three pointers are on a 16-byte
  boundary; nothing is assumed of it.

### Where the code does less, or something else, than it might seem to

- On the parallel path, with a socket count that does not divide the number of elements, the
  last elements are in no node's share, and a descending array stays unsorted:
  `SortSpec.SortsExactly`, and `SortSpec.OneKeyTooMany` for an instance.
- The node tree over a number of sockets that is not a power of two leaves sockets out of
  its deepest level (`TreeWork.DeepestCovers`, `TreeWork.ThreeSockets`). Their shares are not
  merged, and the end of the array stays as it was: `SortOnTree.SortsOnTreeExactly`, and
  `SortSpec.OneSocketTooMany` for an instance.
- A node with several threads whose share is too short for a chunk each never gets past its
  first round: `MctopSort.FirstRoundEndsExactly`. `SharedOut` is what rules this out.
- The end search of the merge never ends when a side is empty or its rank is zero, which
  the first thread's is when there are fewer elements than threads:
  `ParallelMerge.EndSearchEndsExactly`, for all threads `ParallelMerge.SearchesEndExactly`,
  and `ParallelMerge.ThreeThreadsTwoKeys`.
- The unaligned SSE merge is a merge, whatever lies behind its sides, exactly when after the
  prefix a side is used up, or the side its first block comes from has a whole block left, or
  neither has one but four keys are left in all: `SseOutcome.UnalignedMergeExactly`.
  `SseOutcome.OneKeyBeforeABlock` is an input that fails. With no key before the blocks the
  bubble loop may compare with what lies in front of the destination, without harm:
  `SseOutcome.LooksInFrontExactly`.
- Asking the clustering for one cluster when zero is among several values finds none, however
  many passes it makes: `Clustering.SearchEndsExactly`, for instance `Clustering.ZeroAndFive`.
  The sensitivity grows by one a pass and is an integer without bound here; in the code it is
  a C `int`, which overflows after some 2^31 passes.
- Cores first and balanced, a socket's later contexts are handed out in rounds over the sockets, whole
  cores of one socket after the other, so with three contexts a core or more the sockets may end up
  uneven: `Placement.UnevenRounds`. Without balancing these rounds may also take a socket past its
  configured number.
- A pair of the node tree has room for as many helpers as the other sockets can give every
  pair, at most two. The dealing loop fills that room exactly when there is no room, one pair, or
  nobody left over, and otherwise deals the first pair one helper too many:
  `TreeBuilder.AddHelpers`. No level overfills exactly with up to six sockets and with eight:
  `TreeBuilder.RoomExactly`.
- When idle sockets lend their threads, a socket without work at a level may be wanted as a helper
  at a later one, when its threads have left and the level's barrier waits for them. It never
  happens exactly when every level's helpers have work in the next deeper level:
  `TeamThreads.NeverReturnsExactly`. With five sockets it can: `TeamThreads.FiveSockets`.

## Model

| member | source | states |
|---|---|---|
| ParallelMerge.StartSearchFindsFirstSplit | include/merge_utils.h:194-216 | the `<=` search returns the split of its rank that takes as few of b as possible |
| ParallelMerge.EndSearchFindsSplit | include/merge_utils.h:218-239 | the `<` search, whenever it starts from a proper range, ends with a split of its rank |
| ParallelMerge.EndSearchEndsExactly | include/merge_utils.h:218-233 | whatever the comparisons say, the end search's loop ends exactly when both sides are nonempty and the rank is inside; else it never does |
| ParallelMerge.SearchesEndExactly | include/merge_utils.h:218-233 | all threads' end searches end exactly when there is one thread, or both sides are nonempty and have as many keys as there are threads |
| ParallelMerge.ThreeThreadsTwoKeys | include/merge_utils.h:218-233 | one key a side and three threads: the first thread's end search never ends |
| ParallelMerge.ThreadCutGood | include/merge_utils.h:194-254 | a thread's two searches give splits of its two ranks and never a negative stretch of b |
| ParallelMerge.LaterSplitTakesMoreB | include/merge_utils.h:239-243 | from the first split of a rank to any split of a later one the part of b never shrinks |
| ParallelMerge.CutMergeIsMerge | include/merge_utils.h:239-254 | what a thread merges is the stretch of the sequential merge from its rank on, at least up to its next rank, also when the slice of a has negative length |
| ParallelMerge.OverlappingSlices | include/merge_utils.h:187-254 | a concrete tie in which a slice of negative length spills into the next thread's range |
| ParallelMerge.GammaCovers | include/merge_utils.h:196-220 | the ranks of the threads cover every index of the result |
| ParallelMerge.ThreadStartsAt | include/merge_utils.h:194-254 | thread t of n stores from rank t(|a|+|b|)/n on, rounded down, at least up to the next thread's first rank |
| ParallelMerge.ParallelMergeCorrect | include/merge_utils.h:187-254 | in every interleaving of all threads' stores the destination becomes the merge and nothing else changes |
| MergeUtils.MergeArraysUnalignedNosse | include/merge_utils.h:27-45 | the array code stores the merge of the two stretches, a negative size meaning an empty one |
| MergeUtils.FindStart | include/merge_utils.h:194-216 | the loop of the start search computes the split the proofs are about |
| MergeUtils.FindEnd | include/merge_utils.h:218-239 | the loop of the end search does, and terminates on the callers' ranks |
| MergeUtils.MergeArraysNoSse | include/merge_utils.h:187-254 | one thread's code performs exactly its program of stores |
| SseMerge.NetworkSorts | include/merge_sse_utils.h:9-25 | two ascending vectors leave the network as one ascending run, the lower half below both inputs' tops |
| SseMerge.NetworkPermutes | include/merge_sse_utils.h:9-25 | the network only permutes the eight keys |
| SseMerge.RoundsFinish | include/merge_sse_utils.h:53-65 | from any state of the stream loop over any merge network, what is stored and still to come is the merge |
| SseMerge.BlocksMerge | include/merge_sse_utils.h:28-66 | when the first block is a whole one, streaming the blocks is their merge, also when the other side has no block |
| SseMerge.BehindComesFirst | include/merge_sse_utils.h:42-48 | when it is not, a small enough key behind the short side is among the first four stored |
| SseUtils.SseMergeAligned32bit | include/merge_sse_utils.h:28-66 | for any numbers of blocks the array code stores exactly the block stream over its network, and returns what falls behind the destination |
| SseOutcome.TailsSort | include/merge_utils.h:90-115 | the two tail loops turn a sorted run of the keys taken so far into the merge |
| SseUnaligned.BubbleDown | include/merge_utils.h:92-101 | a leftover key is swapped down past every larger key, to index 0 exactly when all are larger |
| SseUnaligned.BubbleRest | include/merge_utils.h:91-103 | a tail loop inserts a side's leftovers one after the other |
| SseOutcome.PrefixIsFirst | include/merge_utils.h:50-68 | the prefix goes on exactly to the first cursors on its way at which all three pointers are aligned, or to the end of a side; of two equal keys that of `b` goes first |
| SseUnaligned.MergePrefix | include/merge_utils.h:50-68 | the aligning prefix stores the first keys of the merge and stops at the first aligned cursors or at the end of a side |
| SseUnaligned.MergeArraysUnalignedSse | include/merge_utils.h:48-115 | for any sides, alignment and surrounding memory the array code leaves, spills and looks at what the outcome function says |
| SseOutcome.UnalignedMergeExactly | include/merge_utils.h:48-115 | for sorted sides the outcome is the merge with nothing spilled, whatever lies behind the sides, exactly when the merge starts with a whole block, needs none, or has four keys left |
| SseOutcome.LooksInFrontExactly | include/merge_utils.h:91-115 | such a merge compares with what lies in front of its destination exactly when no key precedes the blocks and `a` has no block, or `b` has none and the smaller head |
| SseOutcome.OneKeyBeforeABlock | include/merge_utils.h:79-115 | a concrete input for which the result is not the merge and keys are stored behind it |
| MergeJobs.JobsDone | tests/merge_sort/mctop_sort.cc:471-509 | a phase in which teams share several merges leaves every merge in place and nothing else changed |
| MergeJobs.MergeJobGood | include/merge_utils.h:187-254 | the threads of one merge store only right keys and all of them |
| SocketMerge.RoundResult | tests/merge_sort/mctop_sort.cc:471-509 | all threads of a socket working through all pairs leave the merged neighbours in the destination buffer |
| SocketRounds.Combine | tests/merge_sort/mctop_sort.cc:383-397 | the in-place update makes the descriptors contiguous ranges of the merged runs, an odd last one carried over |
| SocketRounds.MergeRound | tests/merge_sort/mctop_sort.cc:357-410 | after a round the merged runs tile the other buffer, described by the partitions |
| SocketRounds.FairExists | tests/merge_sort/mctop_sort.cc:176-307 | every sort has a complete schedule of its phases |
| Pieces.MergeAdjacentKeys | tests/merge_sort/mctop_sort.cc:383-397 | a round only permutes the keys of the node |
| Pieces.RoundsForIsCeilLog | tests/merge_sort/mctop_sort.cc:401-405 | the number of rounds is the logarithm of the number of partitions, rounded up |
| Chunking.SizeGetNumDivByAB | tests/merge_sort/mctop_sort.cc:68-117 | the chunk size is the largest number up to the share that a * b divides, or a if the two are equal |
| Chunking.ChunkSize | tests/merge_sort/mctop_sort.cc:213-226 | one chunk per thread fits in the share, and chunks are empty or at least as long as there are threads |
| Chunking.ChunksFlatten | tests/merge_sort/mctop_sort.cc:219-241 | the chunks, the last one with the remainder, are the whole share in order |
| Chunking.PiecesResult | tests/merge_sort/mctop_sort.cc:228-247 | threads that each fill their own stretch leave all pieces in a row, in any interleaving |
| MctopSort.MergeRounds | tests/merge_sort/mctop_sort.cc:338-419 | the rounds leave the node's keys sorted in one of its two buffers, in as many rounds as halving takes |
| MctopSort.SortData.SortChunks | tests/merge_sort/mctop_sort.cc:196-247 | after the first phase the node's source holds sorted chunks of its share, described by its partitions |
| MctopSort.SortData.MergeInSocket | tests/merge_sort/mctop_sort.cc:338-419 | the node's source buffer ends as the sorted share and no other node is touched |
| MctopSort.SortData.SortNodes | tests/merge_sort/mctop_sort.cc:175-273 | every node ends with its sorted share, the array unchanged, and every interleaving of the nodes' stores leaves the same memory |
| Traces.NodesInterleave | tests/merge_sort/mctop_sort.cc:175-273 | however the stores of nodes that keep to their own buffers interleave, each node's buffers end up as if it had run alone |
| MctopSort.SortData.MergeLevel | tests/merge_sort/mctop_sort.cc:518-576 | a level keeps all keys on the nodes of the level above, sorted node by node; level 0 writes them in order into the array |
| MctopSort.SortData.MergeCrossSocket | tests/merge_sort/mctop_sort.cc:512-589 | from the deepest level up the array becomes the sorted keys of the nodes of that level, the rest of it unchanged |
| MctopSort.SortData.CopyBack | tests/merge_sort/mctop_sort.cc:286-292 | with one node the threads copy the sorted share back over the whole array |
| MctopSort.SortData.MctopSort | tests/merge_sort/mctop_sort.cc:8-65 | an array of at most 524288 keys, or one for a single context, is sorted; any other becomes the outcome of the parallel path for the sockets of the deepest level |
| MctopSort.FirstRoundEndsExactly | tests/merge_sort/mctop_sort.cc:213-226 | several threads of a node get past their first round of merges exactly when the share gives each of them a chunk |
| MctopSort.EnoughIs | tests/merge_sort/mctop_sort.cc:213-226 | a share is enough for k threads when it has 4k keys for each, or 4 for each of 4 threads |
| CrossLevels.TeamsResult | tests/merge_sort/mctop_sort.cc:513-560 | teams on different destination buffers do not disturb each other, in any interleaving |
| CrossLevels.SwapLeaders | tests/merge_sort/mctop_sort.cc:562-576 | after the leaders' updates every node that took part, helpers included when idle nodes lend threads, holds its pair's size and has its buffers swapped; all others are as before |
| CrossLevels.LevelUp | tests/merge_sort/mctop_sort.cc:518-576 | a merged level is a ready level above it: sorted, no keys lost |
| CrossLevels.TopResult | tests/merge_sort/mctop_sort.cc:542-560 | after level 0 the array starts with all keys in order |
| CrossSocket.KeysMoveUp | src/mctop_node_tree.c:272-311 | merging the pairs of a level leaves all its keys on the nodes of the level above |
| SortSpec.ShortIsSorted | tests/merge_sort/mctop_sort.cc:8-16 | up to 524288 keys, or with one context, the result is the sorted array |
| SortSpec.OutcomeIs | tests/merge_sort/mctop_sort.cc:31-38 | on the parallel path the merged sockets' parts in order and then what was there before; a part is the n / ns smallest keys of a share, and the last share has n % (n / ns) keys more |
| SortSpec.OutcomeSorts | tests/merge_sort/mctop_sort.cc:31-38 | on the parallel path, when the tree merges all nodes and the shares are equal, the outcome is the sorted array |
| SortSpec.OutcomeCanFail | tests/merge_sort/mctop_sort.cc:31-38 | on the parallel path over several nodes, with unequal shares or a node that is not merged, a descending array is not sorted |
| SortSpec.SortsExactly | tests/merge_sort/mctop_sort.cc:8-65 | whichever nodes the tree merges, all arrays of n keys are sorted exactly when n is at most 524288, or there is one context or one node, or all nodes are merged and their number divides n |
| SortSpec.OneKeyTooMany | tests/merge_sort/mctop_sort.cc:8-65 | 524289 keys on two sockets, long enough for the parallel path: a concrete array that stays unsorted |
| SortSpec.OneSocketTooMany | tests/merge_sort/mctop_sort.cc:8-65 | 524289 keys on three sockets of which the tree merges two: a concrete array that stays unsorted, although three divides its length |
| TreeBuilder.FloorLog2 | src/mctop_node_tree.c:5-15 | the highest bit of a 32-bit number, -1 for zero |
| TreeBuilder.BuildPairs | src/mctop_node_tree.c:289-320 | the greedy loop pairs each destination with its first sibling that is free, always finds one, and uses no node twice |
| TreeBuilder.AddHelpers | src/mctop_node_tree.c:321-362 | helpers are sockets outside the level's pairs, dealt in turn, each the first free sibling of its pair's destination; none helps twice, and they fill the pairs' room exactly when there is no room, one pair or nobody left over |
| TreeBuilder.BuildLevel | src/mctop_node_tree.c:265-362 | a level's destinations are the sockets to match, in order, its nodes are distinct, and sources and helpers are chosen greedily |
| TreeBuilder.CreateTree | src/mctop_node_tree.c:244-376 | one level per doubling, each matching the nodes of the one above and built greedily from socket 0 on; all merge ids are assigned; for up to eight sockets, other than five and seven, helpers fit their room and every socket has a place below level 0 |
| TreeBuilder.RoomExactly | src/mctop_node_tree.c:321-362 | no level's helpers exceed their room exactly for up to six sockets and for eight |
| TreeBuilder.PairOffsets | src/mctop_node_tree.c:151-184 | each member's ids start where the previous member's end |
| TreeBuilder.OffsetsAre | src/mctop_node_tree.c:151-184 | the destination's threads have the first ids, then come the source's and the helpers', one helper after the other; helpers count for the size only when everyone takes part |
| TreeBuilder.MergeIdInRange | src/mctop_node_tree.c:151-184 | in-socket rank plus offset is an id of the team |
| TreeBuilder.MergeIdsDiffer | src/mctop_node_tree.c:151-184 | no two threads of a team have the same id |
| TreeBuilder.MergeIdsCover | src/mctop_node_tree.c:151-184 | every id of a team is some thread's |
| TreeWork.GrownIsValid | src/mctop_node_tree.c:244-320 | a tree that was built is one the sort can follow, and its deepest level has a power of two of sockets |
| TreeWork.DeepestCovers | src/mctop_node_tree.c:244-320 | the deepest level pairs up all sockets exactly when their number is a power of two |
| TreeWork.ThreeSockets | src/mctop_node_tree.c:244-320 | with three sockets the only level leaves one out |
| TreeWork.SourceIsDone | src/mctop_node_tree.c:272-287 | a node that is a source at a level is in no pair of any lower-numbered level |
| TeamThreads.LeavesForGood | tests/merge_sort/mctop_sort.cc:577-584 | a node without work at a level, merging or helping, has none at any lower-numbered level; with helpers, in trees with room for them |
| TeamThreads.NeverReturnsExactly | tests/merge_sort/mctop_sort.cc:577-584 | threads that leave are never wanted again exactly when idle sockets do not help, or every level's helpers have work in the next deeper level |
| TeamThreads.FiveSockets | src/mctop_node_tree.c:244-376 | five sockets with given sibling lists, for which the builder makes a tree that has nothing for socket 4 at level 1 and wants its help at level 0 |
| TeamThreads.MergeId | tests/merge_sort/mctop_sort.cc:523-534 | a thread of a node with work computes in-socket rank plus offset, its id in the team |
| TeamThreads.TeamIdsAreThreads | tests/merge_sort/mctop_sort.cc:523-534 | the ids 0 to `num_hw_contexts` - 1 of a team are those of the threads on its nodes, one each |
| TreeWork.GetWorkDescription | src/mctop_node_tree.c:411-473 | a node gets work exactly when it is a member of a team of the level, with that team's nodes, size and the node's id offset |
| TreeWork.OnePlace | src/mctop_node_tree.c:379-409 | a node has at most one place in the teams of a level, merging or helping |
| SortOnTree.TeamIsSmall | src/mctop_node_tree.c:151-184 | a team of up to four nodes never has more threads than a share has keys |
| SortOnTree.TreeIsUsable | src/mctop_node_tree.c:244-376 | the library's tree over several sockets meets all that the sort requires |
| SortOnTree.SortsOnTreeExactly | tests/merge_sort/mctop_sort.cc:8-65 | over the tree of any number of sockets all arrays of n keys are sorted exactly when n is at most 524288, or there is one context, or the number of sockets is a power of two and divides n |
| SortOnTree.SortOnSockets | tests/merge_sort/mctop_sort.cc:8-65 | building the tree over any number of fully linked sockets and sorting over it gives `SortResult`, in every schedule |
| WorkQueue.StepRefines | src/mctop_wq.c:204-271 | every step of every operation is defined and is invisible or one atomic FIFO operation |
| WorkQueue.EmptyIsNotLocked | src/mctop_wq.c:244-249 | a dequeue that sees an empty queue is over and leaves queue and lock alone |
| QueueRuns.NeverTwoInside | src/mctop_wq.c:204-220 | in every state of every run two threads inside a queue's lock are the same thread |
| QueueRuns.UnlockedQueuesAreLists | src/mctop_wq.c:230-271 | in every run the list of an unlocked queue has exactly `size` nodes behind the dummy, up to the tail |
| QueueRuns.NeverDeadlocked | src/mctop_wq.c:204-271 | in every run, while an operation is under way some thread can take a step that changes its place |
| QueueRuns.RunsAreLinearizable | src/mctop_wq.c:230-271 | every run of any requests has a legal history of atomic operations that consists of each thread's operations with the answers it got, and of no others, and in which an operation that returned before another began comes first |
| QueueRuns.FirstInFirstOut | src/mctop_wq.c:230-271 | in a legal history of atomic operations the items taken from a queue are the items put in, in order |
| QueueRuns.QueuesAreFirstInFirstOut | src/mctop_wq.c:230-271 | after every run the items that the threads got from a queue, followed by what it holds, are the items that the threads put into it, in one order that agrees with each thread's own and with real time |
| QueueRuns.NothingLostOrInvented | src/mctop_wq.c:230-271 | after every run that leaves no operation under way, the logs of all threads show as many puts of each item into a queue as takes from it and copies left in it |
| SortProtocol.OwnQueueFirst | src/mctop_wq.c:325-338 | a scan starts with the thread's own queue and takes its head if there is one |
| SortProtocol.ThenTheOthers | src/mctop_wq.c:339-357 | after that it tries the queues of its stealing order one by one, and is over after the last |
| SortProtocol.ClientDoes | tests/work_queue_sort.c:415-464 | an unsorted item goes back sorted, a sorted one waits for a partner, two go back as one sorted item of all their keys; a thread without a partner publishes when all have entered and all others have left, else it puts its item back |
| SortProtocol.PutsIntoOwnQueue | src/mctop_wq.c:295-306 | an item goes to the end of the thread's own queue, and a new scan begins |
| SortProtocol.StepKeeps | tests/work_queue_sort.c:415-464 | every step of every thread keeps the protocol's invariant: no key lost, no queued item overlooked by a thread that leaves |
| SortProtocol.LastThreadHasAll | tests/work_queue_sort.c:440-447 | at a successful last-thread check all queues are empty and no other thread holds data |
| QueueSort.ItemsAreNotOverlooked | src/mctop_wq.c:325-357 | in every run, while a queue holds an item, some thread has not seen that queue empty since it last held something new, and so has yet to come back to it |
| SortProtocol.ExactlyOnePublishes | tests/work_queue_sort.c:415-464 | when all threads have finished exactly one array has been published |
| QueueSort.SystemSimulates | tests/work_queue_sort.c:415-464 | a step of the client on the linked queues is invisible or one step of the protocol |
| QueueSort.EveryRunSorts | tests/work_queue_sort.c:415-464 | in every interleaving at most one array is published, sorted and complete, and exactly one once all threads are done |
| QueueSort.OneChunkIsReady | tests/work_queue_sort.c:415-464 | the states these runs start from exist |
| QueueSort.EveryThreadCanMove | tests/work_queue_sort.c:415-464 | in every reachable state each thread's next access is defined |
| SortProgress.MissedOnlyWhenEmpty | src/mctop_wq.c:325-357 | while other threads move freely, a scan that ends without an item has found each queue empty at the instant it tried it |
| SortProgress.TakesInOrder | src/mctop_wq.c:325-357 | in every run a thread that gets an item has, in this scan, found its own queue and then the queues before the one it takes from in its stealing order empty, each at the instant it tried it, and gets the head |
| QueueProgress.RunIsProtocolRun | tests/work_queue_sort.c:415-464 | every run on the linked queues is a run of the client over atomic queues, so that all this holds of it |
| SortProgress.EveryoneCanFinish | tests/work_queue_sort.c:415-464 | from every state of the client over atomic queues some schedule lets every thread finish |
| QueueProgress.EveryRunCanFinish | tests/work_queue_sort.c:415-464 | every run on the linked queues can be continued until all threads have finished and the sorted array is the one published |
| WqMerge.MergeItems | tests/work_queue_sort.c:371-413 | merging two items stores their merge in a new array |
| StealOrder.SortUintIndex | src/mctop_wq.c:9-30 | the exchange sort permutes the indexes into increasing order, leaves index 0 first unless a strictly smaller value exists, and changes nothing that is in order |
| StealOrder.QueueOrder | src/mctop_wq.c:50-67 | the stealing order covers all queues exactly when no socket is strictly closer than the own one; the others come in order of latency, or around if all are alike, and the own queue last |
| StealOrder.WqCreate | src/mctop_wq.c:32-70 | every row lists the other queues by latency and the own one last; every scan covers all queues exactly under that condition on every socket |
| StealOrder.CloserNeighbourIsMissed | src/mctop_wq.c:9-67 | on the row 5, 3, which no built topology has, the two functions give an order that never visits the closer socket |
| WqTopology.CreateQueues | src/mctop_wq.c:32-70 | on a topology the library has built every thread's scan covers all queues, and every row lists the other sockets in the order of the latencies of their contexts and the own one last |
| LatencyTable.BelongsIsNear | src/mctop_topology.c:59-79 | in a hierarchy the membership test of the grouping loop is nearness to the group's first context |
| LatencyTable.CollectGroup | src/mctop_topology.c:53-86 | the group a context starts is its class from that context on |
| LatencyTable.TwoByTwoIsHierarchy | src/mctop_topology.c:21-162 | the conditions of a hierarchy can be met |
| TopologyTree.LinkGroup | src/mctop_topology.c:462-503 | a new group becomes the parent of the roots of its members' chains and of no other node |
| TopologyTree.LinkSocket | src/mctop_topology.c:506-557 | so does a new socket |
| TopologyTree.ClassJoins | src/mctop_topology.c:87-100 | a class that joins leaves all lower levels alone and makes its members share the new ancestor, and no others |
| TopologyTree.IdsDiffer | src/mctop_topology.c:462-466 | identifiers built from level and sequence number tell nodes apart |
| Topology.InferClustering | src/mctop_topology.c:391-418 | the levels are exactly the table's values, increasing |
| Topology.HierarchySizes | src/mctop_topology.c:87-96 | below the socket latency classes have more than one context and fewer than a socket; at it they have a socket's number |
| Topology.GroupLevel | src/mctop_topology.c:46-101 | a level's loop processes every context once and keeps the tree of the levels below |
| Topology.BuildLevels | src/mctop_topology.c:38-101 | at each level up to the sockets two contexts share their ancestor exactly when their latency is at most the level's, levels nest through the parents, and all sockets are found |
| TopologyQuery.CreateSiblings | src/mctop_topology.c:106-139 | every pair of sockets gets one link, at the level of the sockets' latency |
| TopologyQuery.AcrossSockets | src/mctop_topology.c:108-119 | contexts of different sockets are as far apart as the sockets' first contexts |
| TopologyQuery.Mctop.GetSiblingWithSockets | src/mctop_control.c:95-107 | the first link between two sockets, if there is one |
| TopologyQuery.Mctop.GetLatency | src/mctop_control.c:416-461 | for contexts the query answers the latency table the topology was built from; for groups and sockets the latency of any contexts below them, or the higher one's level if that is more |
| TopologyQuery.Mctop.GetSocketLatency | src/mctop_control.c:416-461 | a socket's latency to itself is its level's, no other socket is closer, and the latency of two sockets is that of any context of the one to any of the other |
| TopologyQuery.Mctop.constructor | src/mctop_topology.c:20-162 | a table that is a hierarchy gives a topology that answers it |
| Clustering.CdfCalc | src/cdf.c:19-58 | the points are the distinct values in order, each with the percentage of values that are not larger |
| Clustering.ScanClusters | src/cdf.c:96-128 | clusters are stretches of the values; two neighbouring values are in one cluster exactly when they differ by at most the sensitivity and the smaller one is not zero |
| Clustering.ClusterFields | src/cdf.c:96-128 | number, size and range of a cluster, from zero for the first, and its median, the upper one of two |
| Clustering.ClustersApart | src/cdf.c:96-128 | clusters are separate ranges in increasing order |
| Clustering.OneCluster | src/cdf.c:96-128 | every measured value is in exactly one cluster |
| Clustering.NormaliseIsMonotone | src/cdf.c:210-223 | normalised latencies are in the order of the measured ones |
| Clustering.NormaliseIsIdempotent | src/cdf.c:210-223 | normalising a normalised latency changes nothing |
| Clustering.SearchEndsExactly | src/cdf.c:84-162 | the retry loop ends exactly when it is not asked for one cluster of values that start with zero |
| Clustering.ZeroAndFive | src/cdf.c:84-162 | a concrete search that never ends |
| Clustering.ValueToClusterMedian | src/cdf.c:211-223 | a measured value is replaced by the median of its cluster |
| Clustering.OutsideIsZero | src/cdf.c:211-223 | a value in no cluster is replaced by zero |
| Clustering.CdfCluster | src/cdf.c:84-162 | each pass tries the sensitivity of the one before, less the number of clusters that one missed; a result has the requested number of clusters, and the search gives up only when the corrections change sign or the next sensitivity is not positive |
| Clustering.FiveClusters | src/cdf.c:96-128 | 0, 30, 36, 42 and 300 with sensitivity 5 make five clusters |
| Clustering.FourClusters | src/cdf.c:84-162 | four clusters of 0, 10, 14 and 30: found in the third pass, at sensitivity 3 |
| Placement.NthHwcIsInjective | src/mctop_alloc.c:137-163 | different numbers give different contexts of a socket, and every number below its size gives one |
| Placement.GetHwcIds | src/mctop_alloc.c:75-135 | each of the four loops hands out the first contexts of the socket in its order |
| Placement.PrepMinLat | src/mctop_alloc.c:227-352 | under every minimum-latency policy all contexts are different, exist and none is missing; the sockets give their quota one after the other, with contexts first, cores first or one context of every core first as the policy says; the quota is the configured number, or with balancing an equal share |
| Placement.QuotaOnSocket | src/mctop_alloc.c:227-352 | then every listed socket but the last has exactly its quota, and the last what is missing |
| Placement.UnevenRounds | src/mctop_alloc.c:314-331 | with three contexts a core, whole rounds give one of two balanced sockets six contexts and the other four |
| Placement.PrepRoundRobin | src/mctop_alloc.c:354-406 | round robin takes the sockets in turn, each time the next context in the order of the policy; the contexts it hands out all exist exactly when they fit on the sockets used, and then differ and are on those sockets |
| Placement.RanksAreABijection | src/mctop_alloc.c:893-906 | the slots of a socket have the ranks from 0 to their number, each once |
| Placement.GetNthHwcInSocket | src/mctop_alloc.c:893-906 | the loop computes that rank |
| SlotAlloc.StepKeeps | src/mctop_alloc.c:957-1079 | every step keeps slots exclusive and the counter equal to the number of slots that are set and counted, also while a pinned thread tries to pin itself again |
| SlotAlloc.SlotsAreExclusive | src/mctop_alloc.c:957-1079 | in every run no slot has two owners, the counter is at most the number of set slots, and equals it when no update is half done |
| SlotAlloc.GivesUpWhenFull | src/mctop_alloc.c:957-1014 | a pin that gives up does so when every slot is taken, and leaves its thread pinned to its old slot, if it had one |
| SlotAlloc.PinTakesFirstFree | src/mctop_alloc.c:957-1014 | a pin that runs alone while slot i is the first free one takes it in i + 5 accesses: the slot is set, the counter one higher, nothing else changed |
| SlotAlloc.PinGoesOn | src/mctop_alloc.c:965-1013 | a pin that loses a slot goes on with the next one, starts over at the end, and gives up when the counter says that all are used |
| SlotAlloc.UnpinClears | src/mctop_alloc.c:1056-1079 | an unpin that runs alone clears its slot and lowers the counter, nothing else |
| SlotAlloc.AloneRunExists | src/mctop_alloc.c:957-1079 | from every reachable state a thread can run alone for any number of accesses |
| Barrier2.StepKeeps | src/barrier.c:16-39 | every arrival and departure keeps the threads within a round of each other and all other counters zero |
| Barrier2.BarrierHolds | src/barrier.c:16-39 | no thread leaves a round before the other has arrived; a counter is zero when it is used again, and -1 or 1 once thread 0 or 1 alone has arrived |
| Barrier2.NoDeadlock | src/barrier.c:16-39 | some thread can always move, and a waiting thread can leave once the other has arrived |

## Left out

- Measurement, timing, DVFS, power, bandwidth probing and cache sizing depend on the hardware.
- Parsing, printing and drawing of topologies, option parsing and the description files are input and output only.
- Affinity, libnuma, transactional memory and memory reclamation: a pinned thread is an owner record and the lock is a compare-and-swap.
- Weak memory: all accesses are sequentially consistent.
- The small sorts in `mqsort.h`, `mmergesort.h` and `msmallsort.h`, and the termination scheme of `tests/work_queue.c`.
- The sort modes in which only one context of a core merges, or in which contexts of a core merge different pairs; in the modelled modes every hardware context takes part.
- The vector version of the parallel merge hands a negative slice length on as an unsigned one; only the scalar version is modelled as a parallel merge.
- TreeBuilder.AddHelpers: helper lists grow without bound; where the dealing loop exceeds a pair's room the code writes behind it.
- MctopSort.SortData.MctopSort: requires that every thread gets a chunk; with several threads on a node the code otherwise does not end, as `FirstRoundEndsExactly` says.
- MctopSort.SortData.SortNodes: requires that every thread gets a chunk, as the whole sort does.
- MctopSort.SortData.SortChunks: requires a chunk for every thread, as the whole sort does.
- SortOnTree.SortOnSockets: when idle sockets lend threads, five, seven or more than eight sockets, for which a level may call back a socket whose threads have left (`FiveSockets`), or helpers exceed their room (`RoomExactly`).
- Clustering.CdfCluster: requires a search that ends; `SearchEndsExactly` says for which inputs it does.
- Clustering.CdfCalc: percentages are exact fractions, not floating-point numbers.
- The 1.05 sensitivity in the order of sockets by bandwidth; any order of the sockets is a parameter of the placement.
- TopologyQuery.Mctop.GetLatency: nodes are given by their place in the tree; the lookup of public identifiers, and the answer 0 for an unknown one, are not modelled.
- The children, sibling and next links that the construction adds after the groups; the query climbs parents and scans the links between sockets.
- SlotAlloc.StepKeeps: the pinning call without repinning, which takes slots by counting only, is not mixed with the others.
- Unsigned wrap-around of sizes and identifiers.
