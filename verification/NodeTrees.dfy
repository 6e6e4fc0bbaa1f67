/** The tree of sockets that cross-socket algorithms follow: level 0 is the last
    merge, the deepest level pairs up all nodes. */
module NodeTrees {

  /** A destination node, its source, the nodes that only lend threads, the merge ids at
      which each of these nodes' threads start, and the number of threads. */
  datatype Pair = Pair(left: nat, right: nat, helpers: seq<nat>, offsets: seq<nat>, nHwcs: nat) {
    predicate Has(x: nat) { x == left || x == right }
  }

  type Level = seq<Pair>

  /** The nodes of the first p pairs, left before right. */
  function NodesOf(level: Level, p: nat): (ns: seq<nat>)
    requires p <= |level|
    ensures |ns| == 2 * p
  {
    if p == 0 then [] else NodesOf(level, p - 1) + [level[p - 1].left, level[p - 1].right]
  }

  function Nodes(level: Level): seq<nat> { NodesOf(level, |level|) }

  function LeftsOf(level: Level, p: nat): (ns: seq<nat>)
    requires p <= |level|
    ensures |ns| == p && forall q :: 0 <= q < p ==> ns[q] == level[q].left
  {
    if p == 0 then [] else LeftsOf(level, p - 1) + [level[p - 1].left]
  }

  function Lefts(level: Level): seq<nat> { LeftsOf(level, |level|) }

  ghost predicate Distinct(s: seq<nat>) {
    forall i, j :: 0 <= i < j < |s| ==> s[i] != s[j]
  }

  ghost predicate Below(s: seq<nat>, n: nat) {
    forall x :: x in s ==> x < n
  }

  ghost predicate Unshared(level: Level, p: nat, q: nat) {
    p < |level| && q < |level| && (p != q ==> forall h :: h in level[p].helpers ==> h !in level[q].helpers)
  }

  /** No socket helps twice in a level. */
  ghost predicate HelpersApart(level: Level) {
    && (forall p :: 0 <= p < |level| ==> Distinct(level[p].helpers))
    && (forall p, q :: 0 <= p < |level| && 0 <= q < |level| ==> Unshared(level, p, q))
  }

  /** The pairs of a level share no node, and helpers are none of its nodes and help once. */
  ghost predicate ValidLevel(level: Level, n: nat) {
    && Distinct(Nodes(level)) && Below(Nodes(level), n) && HelpersApart(level)
    && forall p :: 0 <= p < |level| ==> HelpersOutside(level, level[p].helpers, n)
  }

  ghost predicate HelpersOutside(level: Level, helpers: seq<nat>, n: nat) {
    forall h :: h in helpers ==> h < n && h !in Nodes(level)
  }

  /** Level 0 is one pair, and the destinations of a level are the nodes of the level above. */
  ghost predicate ValidTree(levels: seq<Level>, n: nat) {
    && |levels| > 0 && |levels[0]| == 1
    && (forall l :: 0 <= l < |levels| ==> ValidLevel(levels[l], n))
    && (forall l :: 0 < l < |levels| ==> LeadsTo(levels[l], levels[l - 1]))
  }

  /** The nodes whose keys the tree merges. */
  function Deepest(levels: seq<Level>): seq<nat> {
    if levels == [] then [] else Nodes(levels[|levels| - 1])
  }

  ghost predicate LeadsTo(deeper: Level, level: Level) {
    multiset(Lefts(deeper)) == multiset(Nodes(level))
  }

  lemma {:induction false} NodesAt(level: Level, p: nat, q: nat)
    requires p < q <= |level|
    ensures NodesOf(level, q)[2 * p] == level[p].left && NodesOf(level, q)[2 * p + 1] == level[p].right
  {
    if p < q - 1 { NodesAt(level, p, q - 1); }
  }

  /** Two pairs of a level have no node in common. */
  lemma PairsApart(level: Level, p: nat, q: nat, x: nat)
    requires Distinct(Nodes(level)) && p < q < |level|
    ensures level[p].left != level[p].right
    ensures !(level[p].Has(x) && level[q].Has(x))
  {
    NodesAt(level, p, |level|);
    NodesAt(level, q, |level|);
  }

  lemma {:induction false} NodeInPair(level: Level, p: nat, x: nat)
    requires p <= |level|
    ensures x in NodesOf(level, p) <==> exists q :: 0 <= q < p && level[q].Has(x)
  {
    if p > 0 { NodeInPair(level, p - 1, x); }
  }
}
