/** The threads of a merge: the node tree's offsets and the placement's ranks together give the
    threads that are present one merge id each, and leave none out. */
module TeamThreads {
  import opened Chunks
  import opened Pieces
  import opened NodeTrees
  import opened TreeBuilder
  import opened TreeWork
  import opened Placement

  /** `hwcs` are the slots of an allocation, one thread each; node x of the tree is socket
      sockets[x], and `participants` counts its threads. */
  ghost predicate Allocated(hwcs: seq<Hwc>, sockets: seq<nat>, participants: seq<nat>) {
    && NodeTrees.Distinct(sockets) && |participants| == |sockets|
    && (forall i :: 0 <= i < |hwcs| ==> hwcs[i].socket in sockets)
    && (forall x :: 0 <= x < |sockets| ==> participants[x] == OnSocket(hwcs, sockets[x], |hwcs|))
  }

  /** A level of a built tree. */
  ghost predicate Finished(level: Level, participants: seq<nat>, everyone: bool) {
    ValidLevel(level, |participants|) && HelpersApart(level) && AllOffsets(level, participants, everyone)
  }

  /** The thread in slot i is on node x, member k of pair p's team, and `id` is its merge id there. */
  ghost predicate Merges(hwcs: seq<Hwc>, sockets: seq<nat>, level: Level, everyone: bool, i: nat, x: nat, p: nat,
                         k: nat, id: nat) {
    && i < |hwcs| && x < |sockets| && sockets[x] == hwcs[i].socket && IsMember(level, everyone, x, p, k)
    && k < |level[p].offsets| && id == level[p].offsets[k] + OnSocket(hwcs, hwcs[i].socket, i)
  }

  ghost predicate HasId(hwcs: seq<Hwc>, sockets: seq<nat>, level: Level, everyone: bool, i: nat, p: nat, id: nat) {
    exists x: nat, k: nat :: Merges(hwcs, sockets, level, everyone, i, x, p, k, id)
  }

  ghost predicate IdTaken(hwcs: seq<Hwc>, sockets: seq<nat>, level: Level, everyone: bool, p: nat, id: nat) {
    exists i: nat :: HasId(hwcs, sockets, level, everyone, i, p, id)
  }

  /** The merge id that the thread in a slot computes for itself, if its node has work in the level. */
  method MergeId(hwcs: seq<Hwc>, sockets: seq<nat>, levels: seq<Level>, lvl: nat, everyone: bool, slot: nat, node: nat,
                 ghost participants: seq<nat>)
    returns (id: Option<nat>)
    requires Allocated(hwcs, sockets, participants) && slot < |hwcs|
    requires node < |sockets| && sockets[node] == hwcs[slot].socket
    requires lvl < |levels| ==> Finished(levels[lvl], participants, everyone)
    ensures id.Some? <==> lvl < |levels| && TakesPart(levels[lvl], everyone, node)
    ensures id.Some? ==> exists p: nat :: HasId(hwcs, sockets, levels[lvl], everyone, slot, p, id.value)
  {
    var rank := GetNthHwcInSocket(hwcs, slot);
    var work := GetWorkDescription(levels, lvl, node, everyone);
    if work.None? { return None; }
    id := Some(work.value.idOffset + rank);
    ghost var p: nat, k: nat :| IsMember(levels[lvl], everyone, node, p, k) && Describes(work.value, levels[lvl][p], k);
    assert Merges(hwcs, sockets, levels[lvl], everyone, slot, node, p, k, id.value);
    assert HasId(hwcs, sockets, levels[lvl], everyone, slot, p, id.value);
  }

  lemma MemberThreads(hwcs: seq<Hwc>, sockets: seq<nat>, participants: seq<nat>, level: Level, everyone: bool,
                      i: nat, x: nat, p: nat, k: nat, id: nat)
    requires Allocated(hwcs, sockets, participants) && Finished(level, participants, everyone)
    requires Merges(hwcs, sockets, level, everyone, i, x, p, k, id)
    ensures OffsetsOf(level[p], participants, everyone) && Members(level[p])[k] == x < |participants|
    ensures OnSocket(hwcs, hwcs[i].socket, i) < participants[x]
  {
    RanksAreABijection(hwcs, hwcs[i].socket);
  }

  /** A thread's id is one of the team's. */
  lemma IdInTeam(hwcs: seq<Hwc>, sockets: seq<nat>, participants: seq<nat>, level: Level, everyone: bool, i: nat,
                 p: nat, id: nat)
    requires Allocated(hwcs, sockets, participants) && Finished(level, participants, everyone)
    requires HasId(hwcs, sockets, level, everyone, i, p, id)
    ensures p < |level| && id < level[p].nHwcs
  {
    var x: nat, k: nat :| Merges(hwcs, sockets, level, everyone, i, x, p, k, id);
    MemberThreads(hwcs, sockets, participants, level, everyone, i, x, p, k, id);
    MergeIdInRange(level[p], participants, everyone, k, OnSocket(hwcs, hwcs[i].socket, i));
  }

  /** Different threads of a team have different ids. */
  lemma ThreadIdsDiffer(hwcs: seq<Hwc>, sockets: seq<nat>, participants: seq<nat>, level: Level, everyone: bool,
                  i: nat, j: nat, p: nat, id: nat)
    requires Allocated(hwcs, sockets, participants) && Finished(level, participants, everyone)
    requires HasId(hwcs, sockets, level, everyone, i, p, id) && HasId(hwcs, sockets, level, everyone, j, p, id)
    ensures i == j
  {
    var x: nat, k: nat :| Merges(hwcs, sockets, level, everyone, i, x, p, k, id);
    var y: nat, m: nat :| Merges(hwcs, sockets, level, everyone, j, y, p, m, id);
    MemberThreads(hwcs, sockets, participants, level, everyone, i, x, p, k, id);
    MemberThreads(hwcs, sockets, participants, level, everyone, j, y, p, m, id);
    MergeIdsDiffer(level[p], participants, everyone, k, OnSocket(hwcs, hwcs[i].socket, i), m,
                   OnSocket(hwcs, hwcs[j].socket, j));
    RanksAreABijection(hwcs, hwcs[i].socket);
  }

  /** Every id of a team is some thread's. */
  lemma IdIsTaken(hwcs: seq<Hwc>, sockets: seq<nat>, participants: seq<nat>, level: Level, everyone: bool, p: nat,
                  id: nat)
    returns (i: nat)
    requires Allocated(hwcs, sockets, participants) && Finished(level, participants, everyone)
    requires p < |level| && id < level[p].nHwcs
    ensures HasId(hwcs, sockets, level, everyone, i, p, id)
  {
    assert OffsetsOf(level[p], participants, everyone);
    var k, r := MergeIdsCover(level[p], participants, everyone, id);
    var x := Members(level[p])[k];
    i := SlotOfRank(hwcs, sockets[x], |hwcs|, r);
    assert Merges(hwcs, sockets, level, everyone, i, x, p, k, id);
  }

  /** A thread is in one team of a level only, and has one id in it. */
  lemma OneTeam(hwcs: seq<Hwc>, sockets: seq<nat>, participants: seq<nat>, level: Level, everyone: bool,
                i: nat, p: nat, id: nat, q: nat, id': nat)
    requires Allocated(hwcs, sockets, participants) && Finished(level, participants, everyone)
    requires HasId(hwcs, sockets, level, everyone, i, p, id) && HasId(hwcs, sockets, level, everyone, i, q, id')
    ensures p == q && id == id'
  {
    var x: nat, k: nat :| Merges(hwcs, sockets, level, everyone, i, x, p, k, id);
    var y: nat, m: nat :| Merges(hwcs, sockets, level, everyone, i, y, q, m, id');
    OnePlace(level, |participants|, everyone, x, p, k, q, m);
  }

  /** The ids 0 up to nHwcs of a team belong to the threads of its nodes, one each. */
  lemma TeamIdsAreThreads(hwcs: seq<Hwc>, sockets: seq<nat>, participants: seq<nat>, level: Level, everyone: bool,
                          p: nat)
    requires Allocated(hwcs, sockets, participants) && Finished(level, participants, everyone) && p < |level|
    ensures forall i: nat, id: nat :: HasId(hwcs, sockets, level, everyone, i, p, id) ==> id < level[p].nHwcs
    ensures forall i: nat, j: nat, id: nat ::
              HasId(hwcs, sockets, level, everyone, i, p, id) && HasId(hwcs, sockets, level, everyone, j, p, id) ==>
                  i == j
    ensures forall i: nat, id: nat, id': nat ::
              HasId(hwcs, sockets, level, everyone, i, p, id) && HasId(hwcs, sockets, level, everyone, i, p, id') ==>
                  id == id'
    ensures forall id: nat :: id < level[p].nHwcs ==> IdTaken(hwcs, sockets, level, everyone, p, id)
  {
    forall i: nat, id: nat | HasId(hwcs, sockets, level, everyone, i, p, id) ensures id < level[p].nHwcs {
      IdInTeam(hwcs, sockets, participants, level, everyone, i, p, id);
    }
    forall i: nat, j: nat, id: nat
      | HasId(hwcs, sockets, level, everyone, i, p, id) && HasId(hwcs, sockets, level, everyone, j, p, id)
      ensures i == j
    {
      ThreadIdsDiffer(hwcs, sockets, participants, level, everyone, i, j, p, id);
    }
    forall i: nat, id: nat, id': nat
      | HasId(hwcs, sockets, level, everyone, i, p, id) && HasId(hwcs, sockets, level, everyone, i, p, id')
      ensures id == id'
    {
      OneTeam(hwcs, sockets, participants, level, everyone, i, p, id, p, id');
    }
    forall id: nat | id < level[p].nHwcs ensures IdTaken(hwcs, sockets, level, everyone, p, id) {
      var i := IdIsTaken(hwcs, sockets, participants, level, everyone, p, id);
    }
  }

  // --------------------------------------------------------------- leaving for good

  /** The node of a helper or pair member, and the pair. */
  lemma PlacedTakesPart(level: Level, n: nat, x: nat)
    requires AllPlaced(level, n) && x < n
    ensures TakesPart(level, true, x)
  {
    if x in Nodes(level) {
      InNodesTakesPart(level, true, x);
    } else {
      assert Helps(level, x);
      var p :| 0 <= p < |level| && x in level[p].helpers;
      var h :| 0 <= h < |level[p].helpers| && level[p].helpers[h] == x;
      assert IsMember(level, true, x, p, h + 2);
    }
  }

  lemma InNodesTakesPart(level: Level, everyone: bool, x: nat)
    requires x in Nodes(level)
    ensures TakesPart(level, everyone, x)
  {
    NodeInPair(level, |level|, x);
    var p :| 0 <= p < |level| && level[p].Has(x);
    assert IsMember(level, everyone, x, p, if x == level[p].left then 0 else 1);
  }

  lemma PairMemberIsNode(level: Level, n: nat, x: nat)
    requires ValidLevel(level, n) && TakesPart(level, false, x)
    ensures x in Nodes(level)
  {
    var p: nat, k: nat :| IsMember(level, false, x, p, k);
    MemberKind(level, n, false, x, p, k);
  }

  /** A node without work at a level has none at any lower-numbered level, so its threads may leave
      for good. When idle nodes lend their threads, this is shown for trees with room for them. */
  lemma LeavesForGood(levels: seq<Level>, n: nat, everyone: bool, k: nat, l: nat, x: nat)
    requires GrownFrom(levels, n) && (everyone ==> RoomyTree(levels, n)) && k < l < |levels| && x < n
    requires !TakesPart(levels[l], everyone, x)
    ensures !TakesPart(levels[k], everyone, x)
  {
    if everyone {
      PlacedTakesPart(levels[l], n, x);
    } else if TakesPart(levels[k], false, x) {
      assert GoodLevel(levels[k], Pow2(k), n);
      PairMemberIsNode(levels[k], n, x);
      NodesShrink(levels, n, k, l, x);
      InNodesTakesPart(levels[l], false, x);
    }
  }

  /** A node that has no work at a level gets none at a lower-numbered one. */
  ghost predicate NeverReturns(levels: seq<Level>, everyone: bool) {
    forall k: nat, l: nat, x: nat ::
      k < l < |levels| && TakesPart(levels[k], everyone, x) ==> TakesPart(levels[l], everyone, x)
  }

  /** The helpers of each level have work in the level below it, where they come from. */
  ghost predicate HelpersStay(levels: seq<Level>) {
    forall l: nat, h: nat :: 0 < l < |levels| && Helps(levels[l - 1], h) ==> TakesPart(levels[l], true, h)
  }

  lemma HelperTakesPart(level: Level, h: nat)
    requires Helps(level, h)
    ensures TakesPart(level, true, h)
  {
    var p :| 0 <= p < |level| && h in level[p].helpers;
    var k :| 0 <= k < |level[p].helpers| && level[p].helpers[k] == h;
    assert IsMember(level, true, h, p, k + 2);
  }

  lemma PartIsNodeOrHelp(level: Level, n: nat, everyone: bool, x: nat)
    requires ValidLevel(level, n) && TakesPart(level, everyone, x)
    ensures x in Nodes(level) || (everyone && Helps(level, x))
  {
    var p: nat, k: nat :| IsMember(level, everyone, x, p, k);
    MemberKind(level, n, everyone, x, p, k);
    if k >= 2 { assert x in level[p].helpers; }
  }

  lemma {:induction false} WorkStays(levels: seq<Level>, n: nat, everyone: bool, k: nat, l: nat, x: nat)
    requires GrownFrom(levels, n) && (everyone ==> HelpersStay(levels)) && k <= l < |levels|
    requires TakesPart(levels[k], everyone, x)
    ensures TakesPart(levels[l], everyone, x)
  {
    if k < l {
      WorkStays(levels, n, everyone, k, l - 1, x);
      assert GoodLevel(levels[l - 1], Pow2(l - 1), n);
      PartIsNodeOrHelp(levels[l - 1], n, everyone, x);
      if x in Nodes(levels[l - 1]) {
        NodesShrink(levels, n, l - 1, l, x);
        InNodesTakesPart(levels[l], everyone, x);
      }
    }
  }

  /** Threads that leave are never wanted again exactly when helpers do not help or every level's
      helpers have work in the next deeper level. */
  lemma NeverReturnsExactly(levels: seq<Level>, n: nat, everyone: bool)
    requires GrownFrom(levels, n)
    ensures NeverReturns(levels, everyone) <==> !everyone || HelpersStay(levels)
  {
    if !everyone || HelpersStay(levels) {
      forall k: nat, l: nat, x: nat | k < l < |levels| && TakesPart(levels[k], everyone, x)
        ensures TakesPart(levels[l], everyone, x)
      {
        WorkStays(levels, n, everyone, k, l, x);
      }
    } else {
      var l: nat, h: nat :| 0 < l < |levels| && Helps(levels[l - 1], h) && !TakesPart(levels[l], true, h);
      HelperTakesPart(levels[l - 1], h);
      assert !NeverReturns(levels, true);
    }
  }

  // ------------------------------------------------------------------- five sockets

  /** The first free sibling, when it is at index k of the list. */
  lemma PairsWith(targets: seq<nat>, level: Level, p: nat, sibs: seq<nat>, n: nat, k: nat)
    requires PairedFirst(targets, level, p, sibs, n) && k < |sibs| && FreeToPair(targets, level, p, n, sibs[k])
    requires forall j :: 0 <= j < k ==> !FreeToPair(targets, level, p, n, sibs[j])
    ensures level[p].right == sibs[k]
  {}

  lemma HelpedBy(level: Level, p: nat, a: nat, siblings: seq<seq<nat>>, n: nat, k: nat)
    requires HelperInTurn(level, siblings, n, p, a) && k < |siblings[level[p].left]|
    requires FreeToHelp(level, p, a, n, siblings[level[p].left][k])
    requires forall j :: 0 <= j < k ==> !FreeToHelp(level, p, a, n, siblings[level[p].left][j])
    ensures level[p].helpers[a] == siblings[level[p].left][k]
  {}

  const FIVE: seq<seq<nat>> := [[1, 2, 4, 3], [0, 3, 2, 4], [0, 1, 3, 4], [0, 1, 2, 4], [0, 1, 2, 3]]

  /** Level 0: sockets 0 and 1, helped by 2 and 4. */
  lemma FiveAtTop(level: Level)
    requires Greedy(level, FIVE, 5) && SmallHelp(level, 5) && |level| == 1 && Lefts(level) == [0]
    ensures Nodes(level) == [0, 1] && Helps(level, 4)
  {
    assert level[0].left == 0;
    PairsWith([0], level, 0, FIVE[0], 5, 0);
    assert Nodes(level) == [0, 1];
    assert HelpRoom(3, 1) == 2 && |level[0].helpers| == 2;
    assert HelperInTurn(level, FIVE, 5, 0, 0) && HelperInTurn(level, FIVE, 5, 0, 1);
    HelpedBy(level, 0, 0, FIVE, 5, 1);
    HelpedBy(level, 0, 1, FIVE, 5, 2);
    assert 4 in level[0].helpers;
  }

  /** Level 1: 0 with 2 and 1 with 3, and nobody helps. */
  lemma FiveBelow(level: Level)
    requires Greedy(level, FIVE, 5) && SmallHelp(level, 5) && ValidLevel(level, 5) && |level| == 2
    requires Lefts(level) == [0, 1]
    ensures !TakesPart(level, true, 4)
  {
    assert level[0].left == Lefts(level)[0] && level[1].left == Lefts(level)[1];
    PairsWith([0, 1], level, 0, FIVE[0], 5, 1);
    PairsWith([0, 1], level, 1, FIVE[1], 5, 1);
    assert HelpRoom(1, 2) == 0 && level[0].helpers == [] && level[1].helpers == [];
    forall p: nat, k: nat ensures !IsMember(level, true, 4, p, k) {}
  }

  /** Five sockets for which the library builds a tree that is of no use when idle sockets lend
      their threads: socket 4 has no work at level 1, so its threads leave, but is to help at level 0. */
  method FiveSockets(participants: seq<nat>) returns (levels: seq<Level>)
    requires |participants| == 5
    ensures |levels| == 2 && !TakesPart(levels[1], true, 4) && TakesPart(levels[0], true, 4)
    ensures GrownFrom(levels, 5) && !NeverReturns(levels, true)
  {
    assert Pow2(0) == 1 && Pow2(1) == 2 && Pow2(2) == 4;
    levels := CreateTree(FIVE, participants, true);
    TwoLevels(5, |levels|);
    assert GoodLevel(levels[0], Pow2(0), 5) && GoodLevel(levels[1], Pow2(1), 5);
    FiveAtTop(levels[0]);
    HelperTakesPart(levels[0], 4);
    FiveBelow(levels[1]);
  }

  lemma TwoLevels(n: nat, nLvls: nat)
    requires Pow2(nLvls) <= n < 2 * Pow2(nLvls) && 4 <= n < 8
    ensures nLvls == 2
  {
    assert Pow2(0) == 1 && Pow2(1) == 2 && Pow2(2) == 4 && Pow2(3) == 8;
    if nLvls > 3 { PowersGrow(3, nLvls); }
  }
}
