/** The sort over the tree that the library builds for its sockets. */
module SortOnTree {
  import opened Arithmetic
  import opened SortedSeqs
  import opened Pieces
  import opened Phases
  import opened SocketRounds
  import opened Chunking
  import opened NodeTrees
  import opened CrossLevels
  import opened SortSpec
  import opened TreeBuilder
  import opened TreeWork
  import opened MctopSort

  /** A share with room for everybody's chunk has at least four keys a thread. */
  lemma FourEach(nd: nat, k: nat)
    requires EnoughFor(nd, k)
    ensures k > 0 && 4 * k <= nd
  {
    DivBracket(nd, k);
    if k == 4 {
      ProductLe(4, nd / k, k);
    } else {
      UnitAtLeast(k);
      ProductLe(4, nd / k, k);
    }
  }

  lemma UnitAtLeast(k: nat)
    requires k > 0 && k != 4
    ensures ChunkUnit(MCTOP_SSE_K, k) >= 4
  {}

  lemma {:induction false} FewThreads(ms: seq<nat>, participants: seq<nat>, nd: nat, k: nat)
    requires k <= |ms| && forall x :: 0 <= x < |participants| ==> 4 * participants[x] <= nd
    ensures 4 * ThreadsOf(ms, participants, k) <= k * nd
  {
    if k > 0 {
      FewThreads(ms, participants, nd, k - 1);
      assert k * nd == (k - 1) * nd + nd;
    }
  }

  /** A team of up to four nodes never has more threads than keys to merge. */
  lemma TeamIsSmall(pair: Pair, participants: seq<nat>, everyone: bool, nd: nat)
    requires OffsetsOf(pair, participants, everyone) && pair.left < |participants|
    requires forall x :: 0 <= x < |participants| ==> EnoughFor(nd, participants[x])
    requires everyone ==> |pair.helpers| <= 2
    ensures 0 < pair.nHwcs <= nd
  {
    var ms, k := Members(pair), Team(pair, everyone);
    forall x | 0 <= x < |participants| ensures 0 < participants[x] && 4 * participants[x] <= nd {
      FourEach(nd, participants[x]);
    }
    FewThreads(ms, participants, nd, k);
    ProductLe(k, 4, nd);
    ThreadsGrow(ms, participants, 1, k);
    assert ThreadsOf(ms, participants, 1) == participants[pair.left];
  }

  /** The library's tree is one the sort can follow. */
  lemma TreeIsUsable(levels: seq<Level>, hwcs: seq<nat>, everyone: bool, nd: nat)
    requires GrownFrom(levels, |hwcs|) && |hwcs| > 1 && |levels| > 0
    requires forall l :: 0 <= l < |levels| ==> AllOffsets(levels[l], hwcs, everyone)
    requires forall x :: 0 <= x < |hwcs| ==> EnoughFor(nd, hwcs[x])
    requires everyone ==> forall l :: 0 <= l < |levels| ==> AtMostHelp(levels[l], 2)
    ensures TreeFits(levels, |hwcs|, nd)
  {
    GrownIsValid(levels, |hwcs|);
    FourEach(nd, hwcs[0]);
    forall l | 0 <= l < |levels| ensures TeamsFit(levels[l], nd) {
      forall p | 0 <= p < |levels[l]| ensures 0 < levels[l][p].nHwcs <= 2 * nd {
        assert ValidLevel(levels[l], |hwcs|) && AllOffsets(levels[l], hwcs, everyone);
        LeftIsNode(levels[l], p, |hwcs|);
        assert everyone ==> AtMostHelp(levels[l], 2);
        TeamIsSmall(levels[l][p], hwcs, everyone, nd);
      }
    }
  }

  /** The sort over a tree that was built is right for every array of a length exactly when one thread
      sorts it, or the number of sockets is a power of two and divides the length. */
  lemma SortsOnTreeExactly(levels: seq<Level>, n: nat, ns: nat, nHwcs: nat)
    requires GrownFrom(levels, ns) && Pow2(|levels|) <= ns < 2 * Pow2(|levels|)
    requires Sortable(n, ns, Deepest(levels), nHwcs)
    ensures (forall a :: |a| == n ==> SortResult(a, ns, Deepest(levels), nHwcs) == Sort(a))
       <==> n <= 524288 || nHwcs == 1 || (IsPower(ns) && n % ns == 0)
  {
    SortsExactly(n, ns, Deepest(levels), nHwcs);
    PowerIsLevels(ns, |levels|);
    if ns > 1 { GrownIsValid(levels, ns); }
  }

  ghost predicate IsPower(n: nat) {
    exists l: nat :: n == Pow2(l)
  }

  /** The whole sort on sockets that all have links to each other: `hwcs` are their numbers
      of hardware contexts, and `everyone` says whether idle sockets lend their threads. */
  method SortOnSockets(data: SortData, siblings: seq<seq<nat>>, hwcs: seq<nat>, everyone: bool, schedule: Scheduler,
                       nHwcs: nat)
    returns (levels: seq<Level>)
    requires AllSiblings(siblings, |hwcs|) && 0 < |hwcs| < 0x1_0000_0000 && Fair(schedule)
    requires |data.memory| == 1 + 2 * |hwcs|
    requires forall b :: 0 <= b < |data.memory| ==> |data.memory[b]| == |data.memory[0]|
    requires |data.memory[0]| > 524288 && nHwcs != 1 ==>
               SharedOut(|data.memory[0]|, hwcs) && (everyone ==> RoomyNumber(|hwcs|))
    modifies data
    ensures GrownFrom(levels, |hwcs|) && Pow2(|levels|) <= |hwcs| < 2 * Pow2(|levels|)
    ensures |data.memory| == old(|data.memory|) && Sortable(|old(data.memory[0])|, |hwcs|, Deepest(levels), nHwcs)
    ensures data.memory[0] == SortResult(old(data.memory[0]), |hwcs|, Deepest(levels), nHwcs)
    ensures |old(data.memory[0])| <= 524288 || nHwcs == 1
            || (IsPower(|hwcs|) && |old(data.memory[0])| % |hwcs| == 0) ==>
              data.memory[0] == Sort(old(data.memory[0]))
  {
    ghost var a := data.memory[0];
    levels := CreateTree(siblings, hwcs, everyone);
    if InParallel(|data.memory[0]|, nHwcs) && |hwcs| > 1 {
      assert |levels| > 0;
      TreeIsUsable(levels, hwcs, everyone, |data.memory[0]| / |hwcs|);
    }
    data.MctopSort(nHwcs, hwcs, levels, everyone, schedule);
    SortsOnTreeExactly(levels, |a|, |hwcs|, nHwcs);
  }

  lemma PowerIsLevels(n: nat, levels: nat)
    requires Pow2(levels) <= n < 2 * Pow2(levels)
    ensures IsPower(n) <==> n == Pow2(levels)
    ensures n > 1 ==> levels > 0
  {
    if IsPower(n) {
      var l: nat :| n == Pow2(l);
      if l < levels { PowersGrow(l + 1, levels); }
      if l > levels { PowersGrow(levels + 1, l); }
    }
  }
}
