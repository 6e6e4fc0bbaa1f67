/** What the node tree guarantees to the algorithms that follow it, and the work
    description a thread gets for a level. */
module TreeWork {
  import opened FiniteSets
  import opened Chunks
  import opened Pieces
  import opened NodeTrees
  import opened SortSpec
  import opened TreeBuilder

  lemma LevelsAreValid(levels: seq<Level>, n: nat)
    requires GrownFrom(levels, n)
    ensures forall l :: 0 <= l < |levels| ==> ValidLevel(levels[l], n) && |levels[l]| == Pow2(l)
  {
    forall l | 0 <= l < |levels| ensures ValidLevel(levels[l], n) && |levels[l]| == Pow2(l) {
      assert GoodLevel(levels[l], Pow2(l), n);
    }
  }

  lemma LevelCounts(levels: seq<Level>, n: nat)
    requires GrownFrom(levels, n) && |levels| > 0
    ensures |levels[0]| == 1 && |Deepest(levels)| == Pow2(|levels|)
  {
    LevelsAreValid(levels, n);
    var last := |levels| - 1;
    assert |levels[last]| == Pow2(last) && |levels[0]| == Pow2(0) && Pow2(last + 1) == 2 * Pow2(last);
  }

  /** A level's destinations are the nodes above it, in order, so a tree that was built is one the
      sort can follow. Its deepest level has a power of two of nodes. */
  lemma GrownIsValid(levels: seq<Level>, n: nat)
    requires GrownFrom(levels, n) && |levels| > 0
    ensures ValidTree(levels, n) && |Deepest(levels)| == Pow2(|levels|)
  {
    LevelsAreValid(levels, n);
    LevelsLead(levels, n);
    LevelCounts(levels, n);
  }

  lemma LevelsLead(levels: seq<Level>, n: nat)
    requires GrownFrom(levels, n)
    ensures forall l :: 0 < l < |levels| ==> LeadsTo(levels[l], levels[l - 1])
  {
    forall l | 0 < l < |levels| ensures LeadsTo(levels[l], levels[l - 1]) {
      assert Lefts(levels[l]) == Nodes(levels[l - 1]);
    }
  }

  ghost predicate HasAll(nodes: seq<nat>, n: nat) {
    forall x: nat :: x < n ==> x in nodes
  }

  /** The deepest level pairs up every socket exactly when their number is a power of two. */
  lemma DeepestCovers(levels: seq<Level>, n: nat)
    requires GrownFrom(levels, n) && |levels| > 0
    ensures HasAll(Deepest(levels), n) <==> n == Pow2(|levels|)
  {
    var last := levels[|levels| - 1];
    assert ValidLevel(last, n) && |Nodes(last)| == 2 * |last| == Pow2(|levels|);
    CoversWhenFull(Nodes(last), n);
  }

  lemma CoversWhenFull(nodes: seq<nat>, n: nat)
    requires Distinct(nodes) && Below(nodes, n)
    ensures HasAll(nodes, n) <==> |nodes| == n
  {
    DistinctSet(nodes);
    DistinctSet(Numbers(n));
    if |nodes| == n {
      AllNumbers(nodes, n);
      forall x: nat | x < n ensures x in nodes {
        NumbersMember(n, x);
        assert x in multiset(Numbers(n)) && x in multiset(nodes);
      }
    }
    if HasAll(nodes, n) {
      assert AsSet(nodes) == AsSet(Numbers(n)) by {
        forall x: nat ensures x in AsSet(nodes) <==> x in AsSet(Numbers(n)) { NumbersMember(n, x); }
      }
    }
  }

  /** Three sockets: the one level the builder makes leaves one of them out. */
  lemma ThreeSockets(levels: seq<Level>)
    requires GrownFrom(levels, 3) && Pow2(|levels|) <= 3 < 2 * Pow2(|levels|)
    ensures |levels| == 1 && !HasAll(Deepest(levels), 3)
  {
    assert Pow2(0) == 1 && Pow2(1) == 2;
    DeepestCovers(levels, 3);
  }

  lemma LeftInNodes(level: Level, x: nat)
    requires x in Lefts(level)
    ensures x in Nodes(level)
  {
    var q :| 0 <= q < |level| && Lefts(level)[q] == x;
    assert level[q].Has(x);
    NodeInPair(level, |level|, x);
  }

  /** Levels only lose nodes on the way up. */
  lemma {:induction false} NodesShrink(levels: seq<Level>, n: nat, k: nat, l: nat, x: nat)
    requires GrownFrom(levels, n) && k <= l < |levels| && x in Nodes(levels[k])
    ensures x in Nodes(levels[l])
  {
    if k < l {
      NodesShrink(levels, n, k, l - 1, x);
      assert Lefts(levels[l]) == Nodes(levels[l - 1]);
      LeftInNodes(levels[l], x);
    }
  }

  /** A node that was a source at level l is in no pair of any level above. */
  lemma SourceIsDone(levels: seq<Level>, n: nat, k: nat, l: nat, p: nat)
    requires GrownFrom(levels, n) && k < l < |levels| && p < |levels[l]|
    ensures levels[l][p].right !in Nodes(levels[k])
  {
    var x := levels[l][p].right;
    assert ValidLevel(levels[l], n) && Lefts(levels[l]) == Nodes(levels[l - 1]);
    if x in Lefts(levels[l]) {
      var q :| 0 <= q < |levels[l]| && Lefts(levels[l])[q] == x;
      NodesAt(levels[l], p, |levels[l]|);
      NodesAt(levels[l], q, |levels[l]|);
    }
    if x in Nodes(levels[k]) { NodesShrink(levels, n, k, l - 1, x); }
  }

  // --------------------------------------------------------------- work descriptions

  datatype Role = Destination | SourceOnly | Helper

  datatype Work = Work(role: Role, destination: nat, source: nat, idOffset: nat, numHwContexts: nat)

  /** Node x is member k of pair p's team. */
  ghost predicate IsMember(level: Level, everyone: bool, x: nat, p: nat, k: nat) {
    p < |level| && k < Team(level[p], everyone) && Members(level[p])[k] == x
  }

  ghost predicate TakesPart(level: Level, everyone: bool, x: nat) {
    exists p: nat, k: nat :: IsMember(level, everyone, x, p, k)
  }

  /** The index of a value in a list, or the length of the list. */
  method Find(s: seq<nat>, x: nat) returns (k: nat)
    ensures k <= |s| && (k < |s| ==> s[k] == x) && (k == |s| ==> x !in s)
  {
    k := 0;
    while k < |s| && s[k] != x
      invariant k <= |s| && x !in s[..k]
    {
      k := k + 1;
    }
    assert s[..|s|] == s;
  }

  /** The pair a node works for, and its place among the pair's members. */
  method PairForNode(level: Level, node: nat, everyone: bool) returns (found: bool, p: nat, k: nat)
    ensures found <==> TakesPart(level, everyone, node)
    ensures found ==> IsMember(level, everyone, node, p, k)
  {
    p, k, found := 0, 0, false;
    while p < |level|
      invariant p <= |level| && !found
      invariant forall q: nat, j: nat :: q < p ==> !IsMember(level, everyone, node, q, j)
    {
      var ms := Members(level[p]);
      k := Find(if everyone then ms else ms[..2], node);
      if k < Team(level[p], everyone) {
        found := true;
        assert IsMember(level, everyone, node, p, k);
        return;
      }
      forall j: nat ensures !IsMember(level, everyone, node, p, j) {
        assert everyone && j < |ms| ==> ms[j] in ms;
        assert !everyone && j < 2 ==> ms[..2][j] in ms[..2];
      }
      p := p + 1;
    }
  }

  /** Nothing for a node without a part in the level; otherwise who merges into whom, and
      the merge id at which the node's threads start. */
  method GetWorkDescription(levels: seq<Level>, lvl: nat, node: nat, everyone: bool) returns (w: Option<Work>)
    requires lvl < |levels| ==> forall p :: 0 <= p < |levels[lvl]| ==>
             |levels[lvl][p].offsets| == |Members(levels[lvl][p])|
    ensures w.Some? <==> lvl < |levels| && TakesPart(levels[lvl], everyone, node)
    ensures w.Some? ==> exists p: nat, k: nat ::
              IsMember(levels[lvl], everyone, node, p, k) && Describes(w.value, levels[lvl][p], k)
  {
    if lvl >= |levels| { return None; }
    var found, p, k := PairForNode(levels[lvl], node, everyone);
    if !found { return None; }
    var pair := levels[lvl][p];
    var role := if pair.left == node then Destination else if pair.right == node then SourceOnly else Helper;
    w := Some(Work(role, pair.left, pair.right, pair.offsets[k], pair.nHwcs));
    assert IsMember(levels[lvl], everyone, node, p, k) && Describes(w.value, levels[lvl][p], k);
  }

  ghost predicate Describes(w: Work, pair: Pair, k: nat) {
    && w.destination == pair.left && w.source == pair.right && w.numHwContexts == pair.nHwcs
    && k < |pair.offsets| == |Members(pair)| && w.idOffset == pair.offsets[k]
    && (k == 0 ==> Members(pair)[k] == pair.left) && (k == 1 ==> Members(pair)[k] == pair.right)
    && (w.role == Destination <==> Members(pair)[k] == pair.left)
    && (w.role == SourceOnly <==> Members(pair)[k] == pair.right && pair.right != pair.left)
  }

  /** A node has one place in one team of a level, whether it merges or helps. */
  lemma OnePlace(level: Level, n: nat, everyone: bool, x: nat, p: nat, k: nat, q: nat, j: nat)
    requires ValidLevel(level, n) && HelpersApart(level)
    requires IsMember(level, everyone, x, p, k) && IsMember(level, everyone, x, q, j)
    ensures p == q && k == j
  {
    MemberKind(level, n, everyone, x, p, k);
    MemberKind(level, n, everyone, x, q, j);
    assert k < 2 <==> j < 2;
    if k < 2 {
      if p < q { PairsApart(level, p, q, x); }
      if q < p { PairsApart(level, q, p, x); }
      OneSide(level, p);
    } else {
      assert Unshared(level, p, q) && Distinct(level[p].helpers);
      assert x in level[p].helpers && x in level[q].helpers;
    }
  }

  lemma OneSide(level: Level, p: nat)
    requires Distinct(Nodes(level)) && p < |level|
    ensures level[p].left != level[p].right
  {
    NodesAt(level, p, |level|);
    assert Nodes(level)[2 * p] != Nodes(level)[2 * p + 1];
  }

  lemma MemberKind(level: Level, n: nat, everyone: bool, x: nat, p: nat, k: nat)
    requires ValidLevel(level, n) && IsMember(level, everyone, x, p, k)
    ensures k < 2 ==> level[p].Has(x) && x in Nodes(level)
    ensures k >= 2 ==> k - 2 < |level[p].helpers| && level[p].helpers[k - 2] == x && x !in Nodes(level)
    ensures k >= 2 ==> forall q :: 0 <= q < |level| ==> !level[q].Has(x)
  {
    if k < 2 {
      assert level[p].Has(x);
      NodeInPair(level, |level|, x);
    } else {
      assert HelpersOutside(level, level[p].helpers, n) && level[p].helpers[k - 2] in level[p].helpers;
      NodeInPair(level, |level|, x);
    }
  }
}
