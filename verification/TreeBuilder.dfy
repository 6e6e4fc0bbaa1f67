/** Building the tree of sockets greedily. A socket is known by its position in the
    allocation; sibling lists may also name sockets outside of it. */
module TreeBuilder {
  import opened Arithmetic
  import opened FiniteSets
  import opened Pieces
  import opened NodeTrees
  import opened SortSpec

  // ------------------------------------------------------------ levels of the tree

  /** Dividing by f scales a bracket of n0 by the same factor. */
  lemma ScaleBracket(n0: nat, n: nat, p: nat, f: nat)
    requires f > 0 && n * p <= n0 < (n + 1) * p
    ensures (n / f) * (p * f) <= n0 < (n / f + 1) * (p * f)
  {
    var q := n / f;
    DivBracket(n, f);
    ProductLe(q * f, n, p);
    ProductLe(n + 1, (q + 1) * f, p);
    Reorder(q, f, p);
    Reorder(q + 1, f, p);
  }

  lemma DivBracket(n: nat, f: nat)
    requires f > 0
    ensures (n / f) * f <= n < (n / f + 1) * f
  {
    assert n == (n / f) * f + n % f;
  }

  lemma Reorder(q: nat, f: nat, p: nat)
    ensures (q * f) * p == q * (p * f)
  {}

  lemma Powers()
    ensures Pow2(1) == 2 && Pow2(2) == 4 && Pow2(4) == 16 && Pow2(8) == 256 && Pow2(16) == 65536
  {
    assert Pow2(4) == 2 * Pow2(3) == 4 * Pow2(2);
    assert Pow2(8) == 2 * Pow2(7) == 4 * Pow2(6) == 8 * Pow2(5) == 16 * Pow2(4);
    assert Pow2(12) == 2 * Pow2(11) == 4 * Pow2(10) == 8 * Pow2(9) == 16 * Pow2(8);
    assert Pow2(16) == 2 * Pow2(15) == 4 * Pow2(14) == 8 * Pow2(13) == 16 * Pow2(12);
  }

  lemma {:induction false} PowSum(a: nat, b: nat)
    ensures Pow2(a + b) == Pow2(a) * Pow2(b)
  {
    if b > 0 {
      PowSum(a, b - 1);
      DoubleFactor(Pow2(a), Pow2(b - 1));
    }
  }

  lemma DoubleFactor(p: nat, q: nat)
    ensures p * (2 * q) == 2 * (p * q)
  {}

  /** One conditional shift of the binary search for the highest bit. */
  method ShiftBy(n0: nat, n: nat, pos: nat, k: nat) returns (n': nat, pos': nat)
    requires n * Pow2(pos) <= n0 < (n + 1) * Pow2(pos) && n < Pow2(k) * Pow2(k)
    ensures n' * Pow2(pos') <= n0 < (n' + 1) * Pow2(pos') && n' < Pow2(k) && (n > 0 ==> n' > 0)
  {
    n', pos' := n, pos;
    if n >= Pow2(k) {
      ScaleBracket(n0, n, Pow2(pos), Pow2(k));
      PowSum(pos, k);
      QuotientBelow(n, Pow2(k));
      n', pos' := n / Pow2(k), pos + k;
    }
  }

  lemma QuotientBelow(n: nat, p: nat)
    requires p > 0 && p <= n < p * p
    ensures 0 < n / p < p
  {
    DivBracket(n, p);
    ProductLe(p, n / p, p);
  }

  /** The position of the highest bit of a 32-bit number, -1 for none. */
  method FloorLog2(n0: nat) returns (pos: int)
    requires n0 < 0x1_0000_0000
    ensures n0 == 0 <==> pos == -1
    ensures n0 > 0 ==> pos >= 0 && Pow2(pos) <= n0 < 2 * Pow2(pos)
  {
    Powers();
    var n, p := ShiftBy(n0, n0, 0, 16);
    n, p := ShiftBy(n0, n, p, 8);
    n, p := ShiftBy(n0, n, p, 4);
    n, p := ShiftBy(n0, n, p, 2);
    n, p := ShiftBy(n0, n, p, 1);
    pos := if n == 0 then -1 else p;
  }

  // ----------------------------------------------------- lists of available sockets

  /** The list without the first occurrence of x. */
  function Remove(s: seq<nat>, x: nat): (r: seq<nat>)
    ensures x !in s ==> r == s
    ensures x in s ==> |r| == |s| - 1
  {
    if s == [] then [] else if s[0] == x then s[1..] else [s[0]] + Remove(s[1..], x)
  }

  lemma DistinctTail(s: seq<nat>)
    requires Distinct(s) && s != []
    ensures Distinct(s[1..]) && s[0] !in s[1..]
  {}

  lemma DistinctPrepend(x: nat, s: seq<nat>)
    requires Distinct(s) && x !in s
    ensures Distinct([x] + s)
  {}

  lemma DistinctAppend(s: seq<nat>, x: nat)
    requires Distinct(s) && x !in s
    ensures Distinct(s + [x])
  {}

  lemma {:induction false} RemoveDistinct(s: seq<nat>, x: nat)
    requires Distinct(s)
    ensures Distinct(Remove(s, x))
    ensures forall y :: y in Remove(s, x) <==> y in s && y != x
  {
    if s != [] {
      DistinctTail(s);
      RemoveDistinct(s[1..], x);
      if s[0] != x { DistinctPrepend(s[0], Remove(s[1..], x)); }
      assert s == [s[0]] + s[1..];
    }
  }

  /** All sockets but the listed ones. */
  method RemoveAll(avail0: seq<nat>, from: seq<nat>) returns (avail: seq<nat>)
    requires Distinct(avail0) && Distinct(from) && forall x :: x in from ==> x in avail0
    ensures Distinct(avail) && |avail| == |avail0| - |from|
    ensures forall x :: x in avail <==> x in avail0 && x !in from
  {
    avail := avail0;
    var k: nat := 0;
    while k < |from|
      invariant k <= |from| && Distinct(avail) && |avail| == |avail0| - k
      invariant forall x :: x in avail <==> x in avail0 && x !in from[..k]
    {
      assert from[k] in from && from[k] !in from[..k];
      RemoveDistinct(avail, from[k]);
      assert from[..k + 1] == from[..k] + [from[k]];
      avail := Remove(avail, from[k]);
      k := k + 1;
    }
    assert from[..k] == from;
  }

  // ------------------------------------------------------------ the pairs of a level

  /** Every socket of the allocation has a sibling link to every other one. */
  ghost predicate AllSiblings(siblings: seq<seq<nat>>, n: nat) {
    |siblings| == n && forall x, y :: 0 <= x < n && 0 <= y < n && x != y ==> y in siblings[x]
  }

  /** The destinations paired so far are the first targets; every node used is gone from
      the list, which has no target left in it. */
  ghost predicate Building(targets: seq<nat>, avail: seq<nat>, level: Level, n: nat) {
    && |level| <= |targets| && Distinct(targets) && Below(targets, n)
    && Distinct(avail) && Below(avail, n) && |avail| + |targets| + |level| == n
    && Distinct(Nodes(level)) && Below(Nodes(level), n)
    && (forall x :: x in avail ==> x !in targets && x !in Nodes(level))
    && (forall x :: x in targets[|level|..] ==> x !in Nodes(level))
    && Lefts(level) == targets[..|level|]
  }

  lemma {:induction false} SamePrefix(level: Level, more: Level, p: nat)
    requires p <= |level|
    ensures NodesOf(level + more, p) == NodesOf(level, p) && LeftsOf(level + more, p) == LeftsOf(level, p)
  {
    if p > 0 { SamePrefix(level, more, p - 1); }
  }

  lemma NodesAppend(level: Level, pair: Pair)
    ensures Nodes(level + [pair]) == Nodes(level) + [pair.left] + [pair.right]
    ensures Lefts(level + [pair]) == Lefts(level) + [pair.left]
  {
    SamePrefix(level, [pair], |level|);
  }

  lemma BuildStep(targets: seq<nat>, avail: seq<nat>, level: Level, n: nat, pair: Pair)
    requires Building(targets, avail, level, n) && |level| < |targets|
    requires pair.left == targets[|level|] && pair.right in avail
    ensures Building(targets, Remove(avail, pair.right), level + [pair], n)
  {
    var i, ns := |level|, Nodes(level);
    NodesAppend(level, pair);
    RemoveDistinct(avail, pair.right);
    assert targets[i] in targets[i..] && targets[i] in targets;
    DistinctAppend(ns, pair.left);
    DistinctAppend(ns + [pair.left], pair.right);
    assert targets[..i + 1] == targets[..i] + [targets[i]];
    forall x | x in targets[i + 1..] ensures x !in Nodes(level + [pair]) {
      assert x in targets[i..] && x in targets && x != targets[i];
    }
  }

  /** The first sibling that is still available. */
  method FindRight(avail: seq<nat>, sibs: seq<nat>) returns (right: nat, avail': seq<nat>)
    requires exists x :: x in avail && x in sibs
    ensures right in avail && avail' == Remove(avail, right)
    ensures exists k :: 0 <= k < |sibs| && sibs[k] == right && forall j :: 0 <= j < k ==> sibs[j] !in avail
  {
    var j: nat := 0;
    while sibs[j] !in avail
      invariant j < |sibs| && forall k :: 0 <= k < j ==> sibs[k] !in avail
      decreases |sibs| - j
    {
      j := j + 1;
    }
    right, avail' := sibs[j], Remove(avail, sibs[j]);
  }

  /** No earlier pair has taken socket x, and it is no target. */
  ghost predicate FreeToPair(targets: seq<nat>, level: Level, p: nat, n: nat, x: nat) {
    p <= |level| && x < n && x !in targets && forall q :: 0 <= q < p ==> level[q].right != x
  }

  /** The source of pair p is the first sibling of its destination that was still free. */
  ghost predicate PairedFirst(targets: seq<nat>, level: Level, p: nat, sibs: seq<nat>, n: nat) {
    p < |level| && exists k :: 0 <= k < |sibs| && sibs[k] == level[p].right && FreeToPair(targets, level, p, n, sibs[k])
                               && forall j :: 0 <= j < k ==> !FreeToPair(targets, level, p, n, sibs[j])
  }

  ghost predicate PairedInTurn(targets: seq<nat>, level: Level, siblings: seq<seq<nat>>, n: nat) {
    forall p :: 0 <= p < |level| ==>
        level[p].left < |siblings| && PairedFirst(targets, level, p, siblings[level[p].left], n)
  }

  /** The available sockets are those that are free. */
  ghost predicate AvailIsFree(targets: seq<nat>, avail: seq<nat>, level: Level, n: nat) {
    forall x: nat :: x in avail <==> FreeToPair(targets, level, |level|, n, x)
  }

  lemma FreeBefore(targets: seq<nat>, level: Level, pair: Pair, p: nat, n: nat, x: nat)
    requires p <= |level|
    ensures FreeToPair(targets, level + [pair], p, n, x) <==> FreeToPair(targets, level, p, n, x)
  {
    forall q | 0 <= q < p ensures (level + [pair])[q] == level[q] {}
  }

  lemma FreeAfter(targets: seq<nat>, level: Level, pair: Pair, n: nat, x: nat)
    ensures FreeToPair(targets, level + [pair], |level| + 1, n, x)
       <==> FreeToPair(targets, level, |level|, n, x) && pair.right != x
  {
    var level' := level + [pair];
    assert level'[|level|] == pair && forall q :: 0 <= q < |level| ==> level'[q] == level[q];
  }

  lemma PairedFirstKept(targets: seq<nat>, level: Level, pair: Pair, p: nat, sibs: seq<nat>, n: nat)
    requires PairedFirst(targets, level, p, sibs, n)
    ensures PairedFirst(targets, level + [pair], p, sibs, n)
  {
    var k :| 0 <= k < |sibs| && sibs[k] == level[p].right && FreeToPair(targets, level, p, n, sibs[k])
             && forall j :: 0 <= j < k ==> !FreeToPair(targets, level, p, n, sibs[j]);
    forall j | 0 <= j <= k
      ensures FreeToPair(targets, level + [pair], p, n, sibs[j]) <==> FreeToPair(targets, level, p, n, sibs[j])
    {
      FreeBefore(targets, level, pair, p, n, sibs[j]);
    }
  }

  lemma PairedNext(targets: seq<nat>, avail: seq<nat>, level: Level, pair: Pair, sibs: seq<nat>, n: nat, k: nat)
    requires AvailIsFree(targets, avail, level, n) && k < |sibs| && sibs[k] == pair.right && pair.right in avail
    requires forall j :: 0 <= j < k ==> sibs[j] !in avail
    ensures PairedFirst(targets, level + [pair], |level|, sibs, n)
  {
    forall j | 0 <= j <= k
      ensures FreeToPair(targets, level + [pair], |level|, n, sibs[j]) <==> sibs[j] in avail
    {
      FreeBefore(targets, level, pair, |level|, n, sibs[j]);
    }
  }

  lemma PairStep(targets: seq<nat>, avail: seq<nat>, level: Level, pair: Pair, siblings: seq<seq<nat>>, n: nat, k: nat)
    requires AvailIsFree(targets, avail, level, n) && PairedInTurn(targets, level, siblings, n) && Distinct(avail)
    requires pair.left < |siblings| && k < |siblings[pair.left]| && siblings[pair.left][k] == pair.right
    requires pair.right in avail && forall j :: 0 <= j < k ==> siblings[pair.left][j] !in avail
    ensures PairedInTurn(targets, level + [pair], siblings, n)
    ensures AvailIsFree(targets, Remove(avail, pair.right), level + [pair], n)
  {
    var level' := level + [pair];
    PairedNext(targets, avail, level, pair, siblings[pair.left], n, k);
    forall p | 0 <= p < |level'|
      ensures level'[p].left < |siblings| && PairedFirst(targets, level', p, siblings[level'[p].left], n)
    {
      if p < |level| { PairedFirstKept(targets, level, pair, p, siblings[level[p].left], n); }
    }
    RemoveDistinct(avail, pair.right);
    forall x: nat ensures x in Remove(avail, pair.right) <==> FreeToPair(targets, level', |level'|, n, x) {
      FreeAfter(targets, level, pair, n, x);
    }
  }

  /** The greedy loop over the targets of a level: it always finds a partner, and takes the first. */
  method BuildPairs(targets: seq<nat>, avail0: seq<nat>, n: nat, siblings: seq<seq<nat>>)
    returns (level: Level, avail: seq<nat>)
    requires Building(targets, avail0, [], n) && AllSiblings(siblings, n) && 2 * |targets| <= n
    ensures Building(targets, avail, level, n) && |level| == |targets| && PairedInTurn(targets, level, siblings, n)
  {
    level, avail := [], avail0;
    NodesOrAvail(targets, avail0, n);
    var toMatch := targets;
    while |level| < |targets|
      invariant Building(targets, avail, level, n) && toMatch == targets[|level|..]
      invariant AvailIsFree(targets, avail, level, n) && PairedInTurn(targets, level, siblings, n)
      decreases |targets| - |level|
    {
      var left, right := toMatch[0], 0;
      toMatch := toMatch[1..];
      assert left == targets[|level|] && left in targets && avail[0] in avail;
      assert avail[0] in siblings[left];
      ghost var before := avail;
      right, avail := FindRight(avail, siblings[left]);
      var pair := Pair(left, right, [], [], 0);
      BuildStep(targets, before, level, n, pair);
      ghost var k :| 0 <= k < |siblings[left]| && siblings[left][k] == right
                     && forall j :: 0 <= j < k ==> siblings[left][j] !in before;
      PairStep(targets, before, level, pair, siblings, n, k);
      level := level + [pair];
    }
  }

  // ---------------------------------------------------------------------- helpers

  const MCTOP_NODE_TREE_MAX_HELP: nat := 2

  ghost predicate SameNodes(level: Level, level': Level) {
    |level'| == |level| && forall p :: 0 <= p < |level| ==>
        level'[p].left == level[p].left && level'[p].right == level[p].right
  }

  lemma {:induction false} SameNodesSame(level: Level, level': Level, p: nat)
    requires SameNodes(level, level') && p <= |level|
    ensures NodesOf(level', p) == NodesOf(level, p) && LeftsOf(level', p) == LeftsOf(level, p)
  {
    if p > 0 { SameNodesSame(level, level', p - 1); }
  }

  /** Every helper is a socket outside the level's pairs and no longer available. */
  ghost predicate HelpersOf(helpers: seq<nat>, avail: seq<nat>, nodes: seq<nat>, n: nat) {
    Distinct(helpers) && forall h :: h in helpers ==> h < n && h !in nodes && h !in avail
  }

  /** Helpers handed out so far: from outside the level's nodes, none of them twice. */
  ghost predicate Helping(level: Level, avail: seq<nat>, nodes: seq<nat>, n: nat) {
    && Distinct(avail) && Below(avail, n) && (forall x :: x in avail ==> x !in nodes)
    && (forall p :: 0 <= p < |level| ==> HelpersOf(level[p].helpers, avail, nodes, n))
    && (forall p, q :: 0 <= p < |level| && 0 <= q < |level| ==> Unshared(level, p, q))
  }

  lemma HelpStep(level: Level, avail: seq<nat>, nodes: seq<nat>, n: nat, p: nat, h: nat)
    requires Helping(level, avail, nodes, n) && p < |level| && h in avail
    ensures Helping(level[p := level[p].(helpers := level[p].helpers + [h])], Remove(avail, h), nodes, n)
  {
    var level', avail' := level[p := level[p].(helpers := level[p].helpers + [h])], Remove(avail, h);
    RemoveDistinct(avail, h);
    assert HelpersOf(level[p].helpers, avail, nodes, n);
    DistinctAppend(level[p].helpers, h);
    forall q | 0 <= q < |level'| ensures HelpersOf(level'[q].helpers, avail', nodes, n) {
      assert HelpersOf(level[q].helpers, avail, nodes, n);
    }
    forall q, r | 0 <= q < |level'| && 0 <= r < |level'| ensures Unshared(level', q, r) {
      assert Unshared(level, q, r) && HelpersOf(level[q].helpers, avail, nodes, n)
             && HelpersOf(level[r].helpers, avail, nodes, n);
    }
  }

  /** The sockets are dealt out in turn: until they are used up, pairs before p have one helper
      more than those from p on. */
  ghost predicate Dealt(level: Level, avail: seq<nat>, a: nat, p: nat, left: int) {
    && (left < 0 ==> avail == [])
    && (left >= 0 ==>
          (&& |avail| == left
           && (forall q :: 0 <= q < p && q < |level| ==> |level[q].helpers| == a + 1)
           && (forall q :: p <= q < |level| ==> |level[q].helpers| == a)))
  }

  ghost predicate Helps(level: Level, x: nat) {
    exists q :: 0 <= q < |level| && x in level[q].helpers
  }

  /** Dealing on: nobody loses a helper, no socket is lost, and nothing happens when none is left. */
  ghost predicate Onward(level: Level, avail: seq<nat>, level': Level, avail': seq<nat>) {
    && |level'| == |level| && (forall q :: 0 <= q < |level| ==> |level[q].helpers| <= |level'[q].helpers|)
    && (avail == [] ==> avail' == [] && level' == level)
    && (forall x: nat :: x in avail || Helps(level, x) ==> x in avail' || Helps(level', x))
  }

  lemma OnwardStep(level: Level, avail: seq<nat>, p: nat, h: nat)
    requires p < |level| && h in avail && Distinct(avail)
    ensures Onward(level, avail, level[p := level[p].(helpers := level[p].helpers + [h])], Remove(avail, h))
  {
    var level', avail' := level[p := level[p].(helpers := level[p].helpers + [h])], Remove(avail, h);
    forall x: nat | x in avail || Helps(level, x) ensures x in avail' || Helps(level', x) {
      if x in avail {
        RemoveDistinct(avail, h);
        if x == h { assert x in level'[p].helpers; }
      } else {
        var q :| 0 <= q < |level| && x in level[q].helpers;
        assert x in level'[q].helpers;
      }
    }
  }

  /** Helper b of pair q was dealt before helper a of pair p. */
  ghost predicate Before(q: nat, b: nat, p: nat, a: nat) {
    b < a || (b == a && q < p)
  }

  /** Socket x was still to be dealt when it was the turn of helper a of pair p. */
  ghost predicate FreeToHelp(level: Level, p: nat, a: nat, n: nat, x: nat) {
    && x < n && x !in Nodes(level)
    && forall q, b :: 0 <= q < |level| && 0 <= b < |level[q].helpers| && Before(q, b, p, a) ==> level[q].helpers[b] != x
  }

  /** Helper a of pair p is the first sibling of the pair's destination that was still free. */
  ghost predicate HelpsFirst(level: Level, p: nat, a: nat, sibs: seq<nat>, n: nat) {
    && p < |level| && a < |level[p].helpers|
    && exists k :: 0 <= k < |sibs| && sibs[k] == level[p].helpers[a] && FreeToHelp(level, p, a, n, sibs[k])
         && forall j :: 0 <= j < k ==> !FreeToHelp(level, p, a, n, sibs[j])
  }

  ghost predicate HelperInTurn(level: Level, siblings: seq<seq<nat>>, n: nat, p: nat, a: nat) {
    p < |level| && level[p].left < |siblings| && HelpsFirst(level, p, a, siblings[level[p].left], n)
  }

  ghost predicate HelpedInTurn(level: Level, siblings: seq<seq<nat>>, n: nat) {
    forall p, a :: 0 <= p < |level| && 0 <= a < |level[p].helpers| ==> HelperInTurn(level, siblings, n, p, a)
  }

  /** Every socket is in a pair, available, or a helper. */
  ghost predicate Accounted(level: Level, avail: seq<nat>, n: nat) {
    forall x: nat :: x < n ==> x in Nodes(level) || x in avail || Helps(level, x)
  }

  function WithHelper(level: Level, p: nat, h: nat): (level': Level)
    requires p < |level|
    ensures |level'| == |level|
  {
    level[p := level[p].(helpers := level[p].helpers + [h])]
  }

  lemma WithHelperNodes(level: Level, p: nat, h: nat)
    requires p < |level|
    ensures Nodes(WithHelper(level, p, h)) == Nodes(level)
  {
    SameNodesSame(level, WithHelper(level, p, h), |level|);
  }

  /** A later helper does not change what was free before. */
  lemma FreeToHelpKept(level: Level, p: nat, h: nat, q: nat, b: nat, n: nat, x: nat)
    requires p < |level| && q < |level| && Before(q, b, p, |level[p].helpers|)
    ensures FreeToHelp(WithHelper(level, p, h), q, b, n, x) <==> FreeToHelp(level, q, b, n, x)
  {
    var level', a := WithHelper(level, p, h), |level[p].helpers|;
    WithHelperNodes(level, p, h);
    assert forall c :: 0 <= c < a ==> level'[p].helpers[c] == level[p].helpers[c];
    assert forall r :: 0 <= r < |level| && r != p ==> level'[r] == level[r];
    if FreeToHelp(level', q, b, n, x) {
      forall r, c | 0 <= r < |level| && 0 <= c < |level[r].helpers| && Before(r, c, q, b)
        ensures level[r].helpers[c] != x
      {
        assert level'[r].helpers[c] != x;
      }
    }
  }

  lemma HelpsFirstKept(level: Level, p: nat, h: nat, q: nat, b: nat, sibs: seq<nat>, n: nat)
    requires p < |level| && HelpsFirst(level, q, b, sibs, n) && Before(q, b, p, |level[p].helpers|)
    ensures HelpsFirst(WithHelper(level, p, h), q, b, sibs, n)
  {
    var level' := WithHelper(level, p, h);
    var k :| 0 <= k < |sibs| && sibs[k] == level[q].helpers[b] && FreeToHelp(level, q, b, n, sibs[k])
             && forall j :: 0 <= j < k ==> !FreeToHelp(level, q, b, n, sibs[j]);
    forall j | 0 <= j <= k ensures FreeToHelp(level', q, b, n, sibs[j]) <==> FreeToHelp(level, q, b, n, sibs[j]) {
      FreeToHelpKept(level, p, h, q, b, n, sibs[j]);
    }
    assert sibs[k] == level'[q].helpers[b];
  }

  /** When it is the turn of pair p in round a, the available sockets are the free ones. */
  lemma AvailIsToHelp(level: Level, avail: seq<nat>, p: nat, a: nat, h: nat, n: nat, x: nat)
    requires Helping(level, avail, Nodes(level), n) && Accounted(level, avail, n) && p < |level|
    requires forall q :: 0 <= q < |level| ==> |level[q].helpers| == if q < p then a + 1 else a
    ensures FreeToHelp(WithHelper(level, p, h), p, a, n, x) <==> x in avail
  {
    var level' := WithHelper(level, p, h);
    WithHelperNodes(level, p, h);
    if x in avail {
      forall q, b | 0 <= q < |level'| && 0 <= b < |level'[q].helpers| && Before(q, b, p, a)
        ensures level'[q].helpers[b] != x
      {
        assert level'[q].helpers[b] == level[q].helpers[b] && HelpersOf(level[q].helpers, avail, Nodes(level), n);
        assert level[q].helpers[b] in level[q].helpers;
      }
    } else if x < n && Helps(level, x) {
      var q :| 0 <= q < |level| && x in level[q].helpers;
      var b :| 0 <= b < |level[q].helpers| && level[q].helpers[b] == x;
      assert Before(q, b, p, a) && level'[q].helpers[b] == x;
    }
  }

  lemma HelpedNext(level: Level, avail: seq<nat>, p: nat, a: nat, siblings: seq<seq<nat>>, n: nat, k: nat)
    requires Helping(level, avail, Nodes(level), n) && Accounted(level, avail, n) && HelpedInTurn(level, siblings, n)
    requires p < |level| && forall q :: 0 <= q < |level| ==> |level[q].helpers| == if q < p then a + 1 else a
    requires level[p].left < |siblings| && k < |siblings[level[p].left]| && siblings[level[p].left][k] in avail
    requires forall j :: 0 <= j < k ==> siblings[level[p].left][j] !in avail
    ensures HelpedInTurn(WithHelper(level, p, siblings[level[p].left][k]), siblings, n)
  {
    var sibs := siblings[level[p].left];
    var level' := WithHelper(level, p, sibs[k]);
    forall q, b | 0 <= q < |level'| && 0 <= b < |level'[q].helpers| ensures HelperInTurn(level', siblings, n, q, b)
    {
      if q == p && b == a {
        forall j | 0 <= j <= k ensures FreeToHelp(level', p, a, n, sibs[j]) <==> sibs[j] in avail {
          AvailIsToHelp(level, avail, p, a, sibs[k], n, sibs[j]);
        }
        assert sibs[k] == level'[p].helpers[a];
      } else {
        assert HelperInTurn(level, siblings, n, q, b);
        HelpsFirstKept(level, p, sibs[k], q, b, siblings[level[q].left], n);
      }
    }
  }

  /** The helpers so far are as the loop deals them. */
  ghost predicate InTurn(level: Level, avail: seq<nat>, siblings: seq<seq<nat>>, n: nat) {
    Helping(level, avail, Nodes(level), n) && Accounted(level, avail, n) && HelpedInTurn(level, siblings, n)
  }

  lemma InTurnStep(level: Level, avail: seq<nat>, p: nat, a: nat, siblings: seq<seq<nat>>, n: nat, k: nat, left: int)
    requires InTurn(level, avail, siblings, n) && p < |level| && Dealt(level, avail, a, p, left)
    requires level[p].left < |siblings| && k < |siblings[level[p].left]| && siblings[level[p].left][k] in avail
    requires forall j :: 0 <= j < k ==> siblings[level[p].left][j] !in avail
    ensures var h := siblings[level[p].left][k]; InTurn(WithHelper(level, p, h), Remove(avail, h), siblings, n)
  {
    var h := siblings[level[p].left][k];
    WithHelperNodes(level, p, h);
    HelpStep(level, avail, Nodes(level), n, p, h);
    OnwardStep(level, avail, p, h);
    HelpedNext(level, avail, p, a, siblings, n, k);
  }

  ghost predicate AtMostHelp(level: Level, bound: nat) {
    forall q :: 0 <= q < |level| ==> |level[q].helpers| <= bound
  }

  lemma SomeAvailable(avail: seq<nat>, sibs: seq<nat>)
    requires forall x :: x in avail ==> x in sibs
    ensures avail == [] || exists k :: 0 <= k < |sibs| && sibs[k] in avail
  {
    if avail != [] { assert avail[0] in sibs; }
  }

  /** One pair's turn: the first available sibling of its destination helps it. */
  method AddHelper(level: Level, avail: seq<nat>, p: nat, siblings: seq<seq<nat>>,
                   ghost nodes: seq<nat>, ghost n: nat, ghost a: nat, ghost left: int, ghost bound: nat)
    returns (level': Level, avail': seq<nat>)
    requires Helping(level, avail, nodes, n) && AllSiblings(siblings, n) && p < |level|
    requires level[p].left < n && level[p].left in nodes
    requires Dealt(level, avail, a, p, left) && AtMostHelp(level, bound) && (avail != [] ==> a < bound)
    requires nodes == Nodes(level) && InTurn(level, avail, siblings, n)
    ensures Helping(level', avail', nodes, n) && SameNodes(level, level')
    ensures nodes == Nodes(level') && InTurn(level', avail', siblings, n)
    ensures Dealt(level', avail', a, p + 1, left - 1) && AtMostHelp(level', bound)
    ensures Onward(level, avail, level', avail') && (avail != [] ==> |level'[p].helpers| > |level[p].helpers|)
  {
    level', avail' := level, avail;
    var sibs := siblings[level[p].left];
    SomeAvailable(avail, sibs);
    var s: nat := 0;
    while s < |sibs| && sibs[s] !in avail
      invariant s <= |sibs| && forall k :: 0 <= k < s ==> sibs[k] !in avail
    {
      s := s + 1;
    }
    if s < |sibs| {
      HelpStep(level, avail, nodes, n, p, sibs[s]);
      OnwardStep(level, avail, p, sibs[s]);
      InTurnStep(level, avail, p, a, siblings, n, s, left);
      WithHelperNodes(level, p, sibs[s]);
      avail' := Remove(avail, sibs[s]);
      level' := WithHelper(level, p, sibs[s]);
    }
  }

  /** While sockets are left in round a, the next pair's share stays within two. */
  lemma HelpBound(r: nat, pairs: nat, a: nat, p: nat, nAvail: nat)
    requires p < pairs && a < nAvail && r - a * pairs - p > 0
    requires (pairs == 1 && nAvail <= 2) || r <= 2 * pairs
    ensures a < 2
  {
    if a >= 2 { ProductLe(2, a, pairs); }
  }

  /** The room for helpers that each pair of a level gets: at most two. */
  function HelpRoom(avail: nat, pairs: nat): (room: nat)
    requires pairs > 0
    ensures room <= MCTOP_NODE_TREE_MAX_HELP && room * pairs <= avail
  {
    OneMore(avail / pairs, pairs);
    ProductLe(MCTOP_NODE_TREE_MAX_HELP, avail / pairs, pairs);
    if avail / pairs > MCTOP_NODE_TREE_MAX_HELP then MCTOP_NODE_TREE_MAX_HELP else avail / pairs
  }

  /** The number of rounds: the code deals one helper to every pair in each. */
  function HelpSlots(avail: nat, pairs: nat): nat
    requires pairs > 0
  {
    HelpRoom(avail, pairs) * pairs
  }

  /** The helpers dealt to a pair are as many as its room. */
  predicate RoomSuffices(avail: nat, pairs: nat)
    requires pairs > 0
  {
    HelpRoom(avail, pairs) == 0 || pairs == 1 || avail == HelpRoom(avail, pairs) * pairs
  }

  ghost predicate AllHave(level: Level, room: nat) {
    forall q :: 0 <= q < |level| ==> |level[q].helpers| == room
  }

  /** A level deals in turn no more than two helpers to a pair when it has one pair or
      at most two sockets a pair are left over. */
  ghost predicate HelpFits(avail: int, pairs: nat) {
    pairs == 1 || avail <= 2 * pairs
  }

  ghost predicate DealState(level0: Level, level: Level, avail: seq<nat>, n: nat, a: nat, p: nat, left: int,
                            bound: nat) {
    && SameNodes(level0, level) && Nodes(level) == Nodes(level0) && Helping(level, avail, Nodes(level0), n)
    && Dealt(level, avail, a, p, left) && AtMostHelp(level, bound)
  }

  method DealRound(level0: Level, level: Level, avail: seq<nat>, siblings: seq<seq<nat>>, nAvail: nat,
                   ghost n: nat, ghost a: nat, ghost r: nat, ghost left: int, ghost bound: nat)
    returns (level': Level, avail': seq<nat>)
    requires AllSiblings(siblings, n) && Below(Nodes(level0), n) && |level0| > 0 && a < nAvail
    requires left == r - a * |level0| && DealState(level0, level, avail, n, a, 0, left, bound)
    requires bound >= nAvail || (bound == 2 && (|level0| == 1 ==> nAvail <= 2) && HelpFits(r, |level0|))
    requires InTurn(level, avail, siblings, n)
    ensures InTurn(level', avail', siblings, n)
    ensures DealState(level0, level', avail', n, a + 1, 0, left - |level0|, bound)
    ensures Onward(level, avail, level', avail') && (avail != [] ==> |level'[0].helpers| > |level[0].helpers|)
  {
    level', avail' := level, avail;
    var p: nat := 0;
    while p < |level0| && nAvail > 0
      invariant p <= |level0| && DealState(level0, level', avail', n, a, p, left - p, bound)
      invariant Onward(level, avail, level', avail') && InTurn(level', avail', siblings, n)
      invariant p > 0 && avail != [] ==> |level'[0].helpers| > |level[0].helpers|
    {
      LeftIsNode(level0, p, n);
      if avail' != [] && bound < nAvail { HelpBound(r, |level0|, a, p, nAvail); }
      level', avail' := AddHelper(level', avail', p, siblings, Nodes(level0), n, a, left - p, bound);
      p := p + 1;
    }
  }

  /** Where the dealing stands after a rounds: up to the room every pair has a helper a round; then
      either all are dealt, or the first pair has too many. */
  ghost predicate RoomState(level: Level, avail: seq<nat>, r: nat, room: nat, a: nat) {
    && (a <= room ==> AllHave(level, a))
    && (a >= room && r == room * |level| ==> avail == [] && AllHave(level, room))
    && (a > room && r > room * |level| ==> |level| > 0 && |level[0].helpers| > room)
  }

  lemma RoomStep(level0: Level, level: Level, avail: seq<nat>, level': Level, avail': seq<nat>, n: nat,
                 r: nat, room: nat, a: nat, left: int, bound: nat)
    requires left == r - a * |level0| && DealState(level0, level, avail, n, a, 0, left, bound) && |level0| > 0
    requires DealState(level0, level', avail', n, a + 1, 0, left - |level0|, bound) && room * |level0| <= r
    requires Onward(level, avail, level', avail') && (avail != [] ==> |level'[0].helpers| > |level[0].helpers|)
    requires RoomState(level, avail, r, room, a)
    ensures RoomState(level', avail', r, room, a + 1)
  {
    OneMore(a, |level0|);
    ProductLe(a + 1, room, |level0|);
    ProductLe(room, a, |level0|);
  }

  /** At the end the helpers fill the room exactly when it suffices. */
  lemma RoomAtEnd(level: Level, avail: seq<nat>, r: nat, room: nat, a: nat)
    requires |level| > 0 && room == HelpRoom(r, |level|) && a == room * |level| && RoomState(level, avail, r, room, a)
    ensures AllHave(level, room) <==> RoomSuffices(r, |level|)
    ensures r == room * |level| ==> avail == []
  {
    if room > 0 && |level| > 1 {
      ProductLe(2, |level|, room);
      Commute(room, |level|);
    }
    if |level| == 1 { assert room * |level| == room; }
  }

  lemma LeftIsNode(level: Level, p: nat, n: nat)
    requires p < |level| && Below(Nodes(level), n)
    ensures level[p].left in Nodes(level) && level[p].left < n
  {
    assert level[p].Has(level[p].left);
    NodeInPair(level, |level|, level[p].left);
  }

  /** Deals the sockets left over to the pairs of a level as helpers. */
  method AddHelpers(level0: Level, avail0: seq<nat>, siblings: seq<seq<nat>>, ghost n: nat) returns (level: Level)
    requires AllSiblings(siblings, n) && Below(Nodes(level0), n) && |level0| > 0
    requires Distinct(avail0) && Below(avail0, n) && forall x :: x in avail0 ==> x !in Nodes(level0)
    requires forall p :: 0 <= p < |level0| ==> level0[p].helpers == []
    requires forall x: nat :: x < n ==> x in Nodes(level0) || x in avail0
    ensures SameNodes(level0, level) && HelpersApart(level) && HelpedInTurn(level, siblings, n)
    ensures forall p :: 0 <= p < |level| ==> HelpersOutside(level, level[p].helpers, n)
    ensures HelpFits(|avail0|, |level0|) ==> AtMostHelp(level, 2)
    ensures AllHave(level, HelpRoom(|avail0|, |level0|)) <==> RoomSuffices(|avail0|, |level0|)
    ensures |avail0| == HelpRoom(|avail0|, |level0|) * |level0| ==> forall x :: x in avail0 ==> Helps(level, x)
  {
    var nAvail := HelpSlots(|avail0|, |level0|);
    ghost var room := HelpRoom(|avail0|, |level0|);
    ghost var bound := if HelpFits(|avail0|, |level0|) then 2 else nAvail;
    var avail := avail0;
    level := level0;
    ghost var left: int := |avail0|;
    var a: nat := 0;
    while a < nAvail
      invariant a <= nAvail && left == |avail0| - a * |level0| && DealState(level0, level, avail, n, a, 0, left, bound)
      invariant RoomState(level, avail, |avail0|, room, a) && InTurn(level, avail, siblings, n)
      invariant forall x :: x in avail0 ==> x in avail || Helps(level, x)
    {
      ghost var level1, avail1 := level, avail;
      level, avail := DealRound(level0, level, avail, siblings, nAvail, n, a, |avail0|, left, bound);
      RoomStep(level0, level1, avail1, level, avail, n, |avail0|, room, a, left, bound);
      OneMore(a, |level0|);
      a, left := a + 1, left - |level0|;
    }
    RoomAtEnd(level, avail, |avail0|, room, a);
    DealtOutside(level0, level, avail, n);
  }

  lemma DealtOutside(level0: Level, level: Level, avail: seq<nat>, n: nat)
    requires SameNodes(level0, level) && Helping(level, avail, Nodes(level0), n)
    ensures HelpersApart(level) && forall p :: 0 <= p < |level| ==> HelpersOutside(level, level[p].helpers, n)
  {
    SameNodesSame(level0, level, |level|);
    forall p | 0 <= p < |level| ensures HelpersOutside(level, level[p].helpers, n) {
      assert HelpersOf(level[p].helpers, avail, Nodes(level0), n);
    }
  }

  // -------------------------------------------------------------------- merge ids

  /** The nodes whose threads may take part in a pair's merge. */
  function Members(pair: Pair): (ms: seq<nat>) {
    [pair.left, pair.right] + pair.helpers
  }

  /** The number of threads of the first k members. */
  function ThreadsOf(ms: seq<nat>, participants: seq<nat>, k: nat): nat
    requires k <= |ms|
  {
    if k == 0 then 0
    else ThreadsOf(ms, participants, k - 1) + (if ms[k - 1] < |participants| then participants[ms[k - 1]] else 0)
  }

  /** Members' ids start where the previous member's end; helpers count only when everyone takes part. */
  ghost predicate OffsetsOf(pair: Pair, participants: seq<nat>, everyone: bool) {
    && |pair.offsets| == |Members(pair)|
    && (forall k :: 0 <= k < |pair.offsets| ==> pair.offsets[k] == ThreadsOf(Members(pair), participants, k))
    && pair.nHwcs == ThreadsOf(Members(pair), participants, if everyone then |Members(pair)| else 2)
  }

  /** The destination's threads have the first ids, then come the source's and then the helpers', in order. */
  lemma OffsetsAre(pair: Pair, participants: seq<nat>, everyone: bool)
    requires OffsetsOf(pair, participants, everyone) && Below(Members(pair), |participants|)
    ensures |pair.offsets| == 2 + |pair.helpers| && pair.left < |participants| && pair.right < |participants|
    ensures pair.offsets[0] == 0 && pair.offsets[1] == participants[pair.left]
    ensures pair.helpers != [] ==> pair.offsets[2] == participants[pair.left] + participants[pair.right]
    ensures forall h :: 0 <= h < |pair.helpers| - 1 ==>
              pair.offsets[h + 3] == pair.offsets[h + 2] + OneOf(participants, pair.helpers[h])
    ensures pair.nHwcs == if everyone && pair.helpers != []
                          then var h := |pair.helpers| - 1;
                               pair.offsets[h + 2] + OneOf(participants, pair.helpers[h])
                          else participants[pair.left] + participants[pair.right]
  {
    var ms := Members(pair);
    assert ms[0] == pair.left && ms[1] == pair.right && ms[0] in ms && ms[1] in ms;
    assert ThreadsOf(ms, participants, 1) == participants[pair.left];
    assert ThreadsOf(ms, participants, 2) == participants[pair.left] + participants[pair.right];
    forall h | 0 <= h < |pair.helpers| - 1
      ensures pair.offsets[h + 3] == pair.offsets[h + 2] + OneOf(participants, pair.helpers[h])
    {
      assert ms[h + 2] == pair.helpers[h] && ThreadsOf(ms, participants, h + 3) == pair.offsets[h + 3];
    }
    if pair.helpers != [] {
      var h := |pair.helpers| - 1;
      assert ms[h + 2] == pair.helpers[h] && ms[h + 2] in ms;
    }
  }

  function OneOf(participants: seq<nat>, x: nat): nat { if x < |participants| then participants[x] else 0 }

  method PairOffsets(pair: Pair, participants: seq<nat>, everyone: bool) returns (pair': Pair)
    requires Below(Members(pair), |participants|)
    ensures pair' == pair.(offsets := pair'.offsets, nHwcs := pair'.nHwcs) && OffsetsOf(pair', participants, everyone)
  {
    ghost var ms := Members(pair);
    assert pair.left in ms && pair.right in ms;
    var offsets, nHwcs := [0], participants[pair.left];
    offsets := offsets + [nHwcs];
    assert ms[0] == pair.left && ms[1] == pair.right && ThreadsOf(ms, participants, 1) == nHwcs;
    nHwcs := nHwcs + participants[pair.right];
    var nHwcsMain := nHwcs;
    var h: nat := 0;
    while h < |pair.helpers|
      invariant h <= |pair.helpers| && |offsets| == h + 2
      invariant forall k :: 0 <= k < h + 2 ==> offsets[k] == ThreadsOf(ms, participants, k)
      invariant nHwcs == ThreadsOf(ms, participants, h + 2) && nHwcsMain == ThreadsOf(ms, participants, 2)
    {
      assert pair.helpers[h] == ms[h + 2] && ms[h + 2] in ms;
      offsets := offsets + [nHwcs];
      nHwcs := nHwcs + participants[pair.helpers[h]];
      h := h + 1;
    }
    pair' := pair.(offsets := offsets, nHwcs := if everyone then nHwcs else nHwcsMain);
    assert Members(pair') == ms;
  }

  /** How many members take part. */
  function Team(pair: Pair, everyone: bool): nat {
    if everyone then |Members(pair)| else 2
  }

  lemma {:induction false} ThreadsGrow(ms: seq<nat>, participants: seq<nat>, i: nat, j: nat)
    requires i <= j <= |ms|
    ensures ThreadsOf(ms, participants, i) <= ThreadsOf(ms, participants, j)
  {
    if i < j { ThreadsGrow(ms, participants, i, j - 1); }
  }

  /** Thread r of member k has merge id offset + r, and it is an id of the team. */
  lemma MergeIdInRange(pair: Pair, participants: seq<nat>, everyone: bool, k: nat, r: nat)
    requires OffsetsOf(pair, participants, everyone) && k < Team(pair, everyone)
    requires Members(pair)[k] < |participants| && r < participants[Members(pair)[k]]
    ensures pair.offsets[k] + r < pair.nHwcs
  {
    ThreadsGrow(Members(pair), participants, k + 1, Team(pair, everyone));
  }

  /** No two threads of a team have the same merge id. */
  lemma MergeIdsDiffer(pair: Pair, participants: seq<nat>, everyone: bool, k: nat, r: nat, k': nat, r': nat)
    requires OffsetsOf(pair, participants, everyone) && k < Team(pair, everyone) && k' < Team(pair, everyone)
    requires Members(pair)[k] < |participants| && r < participants[Members(pair)[k]]
    requires Members(pair)[k'] < |participants| && r' < participants[Members(pair)[k']]
    requires pair.offsets[k] + r == pair.offsets[k'] + r'
    ensures k == k' && r == r'
  {
    if k < k' { ThreadsGrow(Members(pair), participants, k + 1, k'); }
    if k' < k { ThreadsGrow(Members(pair), participants, k' + 1, k); }
  }

  lemma {:induction false} ThreadAt(ms: seq<nat>, participants: seq<nat>, j: nat, id: nat) returns (k: nat, r: nat)
    requires j <= |ms| && id < ThreadsOf(ms, participants, j)
    ensures k < j && ms[k] < |participants| && r < participants[ms[k]]
    ensures id == ThreadsOf(ms, participants, k) + r
  {
    var before := ThreadsOf(ms, participants, j - 1);
    if id < before { k, r := ThreadAt(ms, participants, j - 1, id); } else { k, r := j - 1, id - before; }
  }

  /** Every merge id belongs to a thread of the team. */
  lemma MergeIdsCover(pair: Pair, participants: seq<nat>, everyone: bool, id: nat) returns (k: nat, r: nat)
    requires OffsetsOf(pair, participants, everyone) && id < pair.nHwcs
    ensures k < Team(pair, everyone) && Members(pair)[k] < |participants| && r < participants[Members(pair)[k]]
    ensures pair.offsets[k] + r == id
  {
    k, r := ThreadAt(Members(pair), participants, Team(pair, everyone), id);
  }

  // --------------------------------------------------------------------- the tree

  /** The sockets a level has to match: all nodes of the level above, in order. */
  method Targets(above: Level) returns (targets: seq<nat>)
    ensures targets == Nodes(above)
  {
    targets := [];
    var k: nat := 0;
    while k < |above|
      invariant k <= |above| && targets == NodesOf(above, k)
    {
      targets := targets + [above[k].left, above[k].right];
      k := k + 1;
    }
  }

  lemma NumbersMember(n: nat, x: nat)
    ensures x in Numbers(n) <==> x < n
  {
    if x < n { assert Numbers(n)[x] == x; }
  }

  lemma NumbersDistinct(n: nat)
    ensures Distinct(Numbers(n)) && Below(Numbers(n), n)
  {}

  /** Sockets that are not in the pairs are available. */
  lemma NodesOrAvail(nodes: seq<nat>, avail: seq<nat>, n: nat)
    requires Distinct(nodes) && Distinct(avail) && Below(nodes, n) && Below(avail, n) && |nodes| + |avail| == n
    requires forall x :: x in avail ==> x !in nodes
    ensures forall x: nat :: x < n ==> x in nodes || x in avail
  {
    DistinctSet(nodes);
    DistinctSet(avail);
    assert AsSet(nodes) !! AsSet(avail);
    SubsetSize(AsSet(nodes) + AsSet(avail), NumbersBelow(n));
    forall x: nat | x < n ensures x in nodes || x in avail { assert x in NumbersBelow(n); }
  }

  /** Every socket merges or helps. */
  ghost predicate AllPlaced(level: Level, n: nat) {
    forall x: nat :: x < n ==> x in Nodes(level) || Helps(level, x)
  }

  /** What the level's helpers look like when `left` sockets are in no pair. */
  ghost predicate HelpersFill(level: Level, n: nat, left: nat) {
    && |level| > 0
    && (AllHave(level, HelpRoom(left, |level|)) <==> RoomSuffices(left, |level|))
    && (left == HelpRoom(left, |level|) * |level| ==> AllPlaced(level, n))
  }

  /** Sources and helpers are chosen in turn, each the first one free in its destination's list of siblings. */
  ghost predicate Greedy(level: Level, siblings: seq<seq<nat>>, n: nat) {
    PairedInTurn(Lefts(level), level, siblings, n) && HelpedInTurn(level, siblings, n)
  }

  /** The pairs of a level before helpers are dealt, and the sockets left over. */
  ghost predicate Matched(level: Level, avail: seq<nat>, targets: seq<nat>, siblings: seq<seq<nat>>, n: nat) {
    && |level| == |targets| && Lefts(level) == targets && PairedInTurn(targets, level, siblings, n)
    && Distinct(Nodes(level)) && Below(Nodes(level), n) && |Nodes(level)| + |avail| == n
    && Distinct(avail) && Below(avail, n) && (forall x :: x in avail ==> x !in Nodes(level))
    && (forall p :: 0 <= p < |level| ==> level[p].helpers == [])
  }

  lemma BuiltIsMatched(targets: seq<nat>, level: Level, avail: seq<nat>, pairs: Level, siblings: seq<seq<nat>>, n: nat)
    requires Building(targets, avail, level, n) && |level| == |targets| && PairedInTurn(targets, level, siblings, n)
    requires SameNodes(level, pairs) && forall p :: 0 <= p < |pairs| ==> pairs[p].helpers == []
    ensures Matched(pairs, avail, targets, siblings, n)
  {
    assert targets[..|targets|] == targets;
    SameNodesSame(level, pairs, |level|);
    SameNodesPaired(targets, level, pairs, siblings, n);
  }

  method MatchTargets(targets: seq<nat>, n: nat, siblings: seq<seq<nat>>) returns (pairs: Level, avail: seq<nat>)
    requires AllSiblings(siblings, n) && Distinct(targets) && Below(targets, n) && 0 < 2 * |targets| <= n
    ensures Matched(pairs, avail, targets, siblings, n)
  {
    var all := Numbers(n);
    NumbersDistinct(n);
    forall x | x in targets ensures x in all { NumbersMember(n, x); }
    avail := RemoveAll(all, targets);
    forall x | x in avail ensures x < n { NumbersMember(n, x); }
    var level;
    level, avail := BuildPairs(targets, avail, n, siblings);
    pairs := ClearHelp(level);
    BuiltIsMatched(targets, level, avail, pairs, siblings, n);
  }

  /** One level of the tree, from the sockets it has to match. */
  method BuildLevel(targets: seq<nat>, n: nat, siblings: seq<seq<nat>>) returns (level: Level)
    requires AllSiblings(siblings, n) && Distinct(targets) && Below(targets, n) && 0 < 2 * |targets| <= n
    ensures Lefts(level) == targets && GoodLevel(level, |targets|, n)
    ensures Greedy(level, siblings, n) && SmallHelp(level, n)
  {
    var pairs, avail := MatchTargets(targets, n, siblings);
    NodesOrAvail(Nodes(pairs), avail, n);
    level := AddHelpers(pairs, avail, siblings, n);
    LevelDone(pairs, avail, targets, level, siblings, n);
  }

  lemma LevelDone(pairs: Level, avail: seq<nat>, targets: seq<nat>, level: Level, siblings: seq<seq<nat>>, n: nat)
    requires Matched(pairs, avail, targets, siblings, n) && |pairs| > 0
    requires SameNodes(pairs, level) && HelpersApart(level) && HelpedInTurn(level, siblings, n)
    requires forall p :: 0 <= p < |level| ==> HelpersOutside(level, level[p].helpers, n)
    requires HelpFits(|avail|, |pairs|) ==> AtMostHelp(level, 2)
    requires AllHave(level, HelpRoom(|avail|, |pairs|)) <==> RoomSuffices(|avail|, |pairs|)
    requires |avail| == HelpRoom(|avail|, |pairs|) * |pairs| ==> forall x :: x in avail ==> Helps(level, x)
    ensures Lefts(level) == targets && GoodLevel(level, |targets|, n)
    ensures Greedy(level, siblings, n) && SmallHelp(level, n)
  {
    SameNodesSame(pairs, level, |level|);
    SameNodesPaired(targets, pairs, level, siblings, n);
    NodesOrAvail(Nodes(pairs), avail, n);
    assert |avail| == n - 2 * |level|;
    assert HelpersFill(level, n, |avail|);
  }

  /** Which sources were free depends on the pairs' nodes only. */
  lemma SameNodesPaired(targets: seq<nat>, level: Level, level': Level, siblings: seq<seq<nat>>, n: nat)
    requires SameNodes(level, level') && PairedInTurn(targets, level, siblings, n)
    ensures PairedInTurn(targets, level', siblings, n)
  {
    forall p | 0 <= p < |level'|
      ensures level'[p].left < |siblings| && PairedFirst(targets, level', p, siblings[level'[p].left], n)
    {
      var sibs := siblings[level[p].left];
      var k :| 0 <= k < |sibs| && sibs[k] == level[p].right && FreeToPair(targets, level, p, n, sibs[k])
               && forall j :: 0 <= j < k ==> !FreeToPair(targets, level, p, n, sibs[j]);
      forall j | 0 <= j <= k
        ensures FreeToPair(targets, level', p, n, sibs[j]) <==> FreeToPair(targets, level, p, n, sibs[j])
      {
        assert forall q :: 0 <= q < p ==> level'[q].right == level[q].right;
      }
    }
  }

  /** The pairs as allocated: no helpers yet. */
  method ClearHelp(level: Level) returns (level': Level)
    ensures SameNodes(level, level') && forall p :: 0 <= p < |level| ==> level'[p].helpers == []
  {
    level' := [];
    var p: nat := 0;
    while p < |level|
      invariant p <= |level| && |level'| == p
      invariant forall q :: 0 <= q < p ==>
                  level'[q].left == level[q].left && level'[q].right == level[q].right && level'[q].helpers == []
    {
      level' := level' + [level[p].(helpers := [])];
      p := p + 1;
    }
  }

  ghost predicate GoodLevel(level: Level, pairs: nat, n: nat) {
    |level| == pairs && ValidLevel(level, n) && HelpersApart(level)
  }

  /** Every level matches the nodes of the one above, in order. */
  ghost predicate GrownFrom(levels: seq<Level>, n: nat) {
    && (forall l :: 0 <= l < |levels| ==> GoodLevel(levels[l], Pow2(l), n))
    && (forall l :: 0 < l < |levels| ==> Lefts(levels[l]) == Nodes(levels[l - 1]))
  }

  ghost predicate SmallHelp(level: Level, n: nat) {
    && (HelpFits(n - 2 * |level|, |level|) ==> AtMostHelp(level, 2))
    && 2 * |level| <= n && HelpersFill(level, n, n - 2 * |level|)
  }

  lemma GrowLevel(levels: seq<Level>, n: nat, level: Level)
    requires GrownFrom(levels, n) && GoodLevel(level, Pow2(|levels|), n)
    requires |levels| > 0 ==> Lefts(level) == Nodes(levels[|levels| - 1])
    ensures GrownFrom(levels + [level], n)
  {
    var all := levels + [level];
    forall l | 0 <= l < |all| ensures GoodLevel(all[l], Pow2(l), n) { KeptOrNew(levels, n, level, l); }
    forall l | 0 < l < |all| ensures Lefts(all[l]) == Nodes(all[l - 1]) {
      if l < |levels| { assert all[l] == levels[l] && all[l - 1] == levels[l - 1]; }
    }
  }

  lemma KeptOrNew(levels: seq<Level>, n: nat, level: Level, l: nat)
    requires GrownFrom(levels, n) && GoodLevel(level, Pow2(|levels|), n) && l <= |levels|
    ensures GoodLevel((levels + [level])[l], Pow2(l), n)
  {
    if l < |levels| { assert (levels + [level])[l] == levels[l]; } else { assert (levels + [level])[l] == level; }
  }

  /** The tree starts from socket 0, and every level is built greedily. */
  ghost predicate GreedyTree(levels: seq<Level>, siblings: seq<seq<nat>>, n: nat) {
    && (|levels| > 0 ==> Lefts(levels[0]) == [0])
    && forall l :: 0 <= l < |levels| ==> Greedy(levels[l], siblings, n)
  }

  lemma GreedyMore(levels: seq<Level>, level: Level, siblings: seq<seq<nat>>, n: nat)
    requires GreedyTree(levels, siblings, n) && Greedy(level, siblings, n) && (levels == [] ==> Lefts(level) == [0])
    ensures GreedyTree(levels + [level], siblings, n)
  {
    var all := levels + [level];
    forall l | 0 <= l < |all| ensures Greedy(all[l], siblings, n) { assert l < |levels| ==> all[l] == levels[l]; }
  }

  /** What the levels built so far are like. */
  ghost predicate Built(levels: seq<Level>, siblings: seq<seq<nat>>, n: nat) {
    && GrownFrom(levels, n) && GreedyTree(levels, siblings, n)
    && forall l :: 0 <= l < |levels| ==> SmallHelp(levels[l], n)
  }

  lemma BuiltMore(levels: seq<Level>, level: Level, siblings: seq<seq<nat>>, n: nat)
    requires Built(levels, siblings, n) && GoodLevel(level, Pow2(|levels|), n)
    requires Lefts(level) == if levels == [] then [0] else Nodes(levels[|levels| - 1])
    requires Greedy(level, siblings, n) && SmallHelp(level, n)
    ensures Built(levels + [level], siblings, n)
  {
    GrowLevel(levels, n, level);
    GreedyMore(levels, level, siblings, n);
  }

  /** The next level, for the sockets that the level above uses. */
  method NextLevel(levels: seq<Level>, n: nat, siblings: seq<seq<nat>>) returns (level: Level)
    requires AllSiblings(siblings, n) && Built(levels, siblings, n) && 2 * Pow2(|levels|) <= n
    ensures Built(levels + [level], siblings, n)
  {
    var targets := FirstTargets(levels, n);
    level := BuildLevel(targets, n, siblings);
    BuiltMore(levels, level, siblings, n);
  }

  method BuildLevels(n: nat, nLvls: nat, siblings: seq<seq<nat>>) returns (levels: seq<Level>)
    requires AllSiblings(siblings, n) && Pow2(nLvls) <= n
    ensures |levels| == nLvls && Built(levels, siblings, n)
  {
    levels := [];
    var lvl: nat := 0;
    while lvl < nLvls
      invariant lvl <= nLvls && |levels| == lvl && Built(levels, siblings, n)
    {
      PowersGrow(lvl + 1, nLvls);
      var level := NextLevel(levels, n, siblings);
      levels := levels + [level];
      lvl := lvl + 1;
    }
  }

  /** Level 0 starts from the first socket, every other level from the level above. */
  method FirstTargets(levels: seq<Level>, n: nat) returns (targets: seq<nat>)
    requires GrownFrom(levels, n) && n > 0
    ensures |targets| == Pow2(|levels|) && Distinct(targets) && Below(targets, n)
    ensures targets == if |levels| > 0 then Nodes(levels[|levels| - 1]) else [0]
  {
    if |levels| == 0 {
      targets := [0];
    } else {
      assert ValidLevel(levels[|levels| - 1], n);
      targets := Targets(levels[|levels| - 1]);
    }
  }

  lemma {:induction false} PowersGrow(a: nat, b: nat)
    requires a <= b
    ensures Pow2(a) <= Pow2(b)
  {
    if a < b { PowersGrow(a, b - 1); }
  }

  /** Each pair of a level with its offsets. */
  method LevelOffsets(level: Level, participants: seq<nat>, everyone: bool) returns (level': Level)
    requires ValidLevel(level, |participants|)
    ensures SameNodes(level, level')
    ensures forall p :: 0 <= p < |level| ==>
              level'[p].helpers == level[p].helpers && OffsetsOf(level'[p], participants, everyone)
  {
    level' := [];
    var p: nat := 0;
    while p < |level|
      invariant p <= |level| && |level'| == p
      invariant forall q :: 0 <= q < p ==>
                  && level'[q].left == level[q].left && level'[q].right == level[q].right
                  && level'[q].helpers == level[q].helpers && OffsetsOf(level'[q], participants, everyone)
    {
      MembersBelow(level, p, |participants|);
      var pair := PairOffsets(level[p], participants, everyone);
      level' := level' + [pair];
      p := p + 1;
    }
  }

  lemma MembersBelow(level: Level, p: nat, n: nat)
    requires ValidLevel(level, n) && p < |level|
    ensures Below(Members(level[p]), n)
  {
    assert level[p].Has(level[p].left) && level[p].Has(level[p].right);
    NodeInPair(level, |level|, level[p].left);
    NodeInPair(level, |level|, level[p].right);
    assert HelpersOutside(level, level[p].helpers, n);
  }

  lemma FillCopied(level: Level, level': Level, n: nat, left: nat)
    requires SameNodes(level, level') && forall p :: 0 <= p < |level| ==> level'[p].helpers == level[p].helpers
    requires HelpersFill(level, n, left)
    ensures HelpersFill(level', n, left)
  {
    var room := HelpRoom(left, |level|);
    SameNodesSame(level, level', |level|);
    assert AllHave(level', room) <==> AllHave(level, room) by {
      if AllHave(level', room) {
        forall q | 0 <= q < |level| ensures |level[q].helpers| == room { assert |level'[q].helpers| == room; }
      }
    }
    if AllPlaced(level, n) {
      forall x: nat | x < n ensures x in Nodes(level') || Helps(level', x) {
        assert x in Nodes(level) || Helps(level, x);
        if q :| 0 <= q < |level| && x in level[q].helpers { assert x in level'[q].helpers; }
      }
    }
  }

  /** Two levels that differ only in their offsets. */
  lemma LevelCopy(level: Level, level': Level, n: nat)
    requires SameNodes(level, level') && forall p :: 0 <= p < |level| ==> level'[p].helpers == level[p].helpers
    ensures Nodes(level') == Nodes(level) && Lefts(level') == Lefts(level)
    ensures HelpersApart(level) ==> HelpersApart(level')
    ensures ValidLevel(level, n) ==> ValidLevel(level', n)
    ensures AtMostHelp(level, 2) ==> AtMostHelp(level', 2)
    ensures forall left: nat :: HelpersFill(level, n, left) ==> HelpersFill(level', n, left)
  {
    SameNodesSame(level, level', |level|);
    forall left: nat | HelpersFill(level, n, left) ensures HelpersFill(level', n, left)
    { FillCopied(level, level', n, left); }
    if HelpersApart(level) {
      forall p, q | 0 <= p < |level'| && 0 <= q < |level'| ensures Unshared(level', p, q)
      { assert Unshared(level, p, q); }
    }
    if ValidLevel(level, n) {
      forall p | 0 <= p < |level'| ensures HelpersOutside(level', level'[p].helpers, n) {
        assert HelpersOutside(level, level[p].helpers, n);
      }
    }
  }

  lemma HelpersCopied(level: Level, level': Level, siblings: seq<seq<nat>>, n: nat)
    requires SameNodes(level, level') && forall p :: 0 <= p < |level| ==> level'[p].helpers == level[p].helpers
    requires HelpedInTurn(level, siblings, n)
    ensures HelpedInTurn(level', siblings, n)
  {
    SameNodesSame(level, level', |level|);
    forall p, a | 0 <= p < |level'| && 0 <= a < |level'[p].helpers| ensures HelperInTurn(level', siblings, n, p, a) {
      assert HelperInTurn(level, siblings, n, p, a);
      var sibs := siblings[level[p].left];
      var k :| 0 <= k < |sibs| && sibs[k] == level[p].helpers[a] && FreeToHelp(level, p, a, n, sibs[k])
               && forall j :: 0 <= j < k ==> !FreeToHelp(level, p, a, n, sibs[j]);
      forall j | 0 <= j <= k
        ensures FreeToHelp(level', p, a, n, sibs[j]) <==> FreeToHelp(level, p, a, n, sibs[j])
      {
        FreeToHelpCopied(level, level', p, a, n, sibs[j]);
      }
      assert sibs[k] == level'[p].helpers[a];
    }
  }

  lemma FreeToHelpCopied(level: Level, level': Level, p: nat, a: nat, n: nat, x: nat)
    requires |level'| == |level| && Nodes(level') == Nodes(level)
    requires forall q :: 0 <= q < |level| ==> level'[q].helpers == level[q].helpers
    ensures FreeToHelp(level', p, a, n, x) <==> FreeToHelp(level, p, a, n, x)
  {
    if FreeToHelp(level', p, a, n, x) {
      forall q, b | 0 <= q < |level| && 0 <= b < |level[q].helpers| && Before(q, b, p, a)
        ensures level[q].helpers[b] != x
      {
        assert level'[q].helpers[b] != x;
      }
    }
  }

  lemma CopiedGreedy(bare: seq<Level>, levels: seq<Level>, participants: seq<nat>, everyone: bool,
                     siblings: seq<seq<nat>>)
    requires |levels| == |bare| && GreedyTree(bare, siblings, |participants|)
    requires forall l :: 0 <= l < |bare| ==> Copied(bare[l], levels[l], participants, everyone)
    ensures GreedyTree(levels, siblings, |participants|)
  {
    forall l | 0 <= l < |levels|
      ensures Greedy(levels[l], siblings, |participants|) && Lefts(levels[l]) == Lefts(bare[l])
    {
      assert Copied(bare[l], levels[l], participants, everyone) && Greedy(bare[l], siblings, |participants|);
      SameNodesSame(bare[l], levels[l], |bare[l]|);
      SameNodesPaired(Lefts(bare[l]), bare[l], levels[l], siblings, |participants|);
      HelpersCopied(bare[l], levels[l], siblings, |participants|);
    }
  }

  ghost predicate AllOffsets(level: Level, participants: seq<nat>, everyone: bool) {
    forall p :: 0 <= p < |level| ==> OffsetsOf(level[p], participants, everyone)
  }

  /** The finished form of a level. */
  ghost predicate Copied(level: Level, level': Level, participants: seq<nat>, everyone: bool) {
    && SameNodes(level, level') && (forall p :: 0 <= p < |level| ==> level'[p].helpers == level[p].helpers)
    && AllOffsets(level', participants, everyone)
  }

  lemma CopiedTree(bare: seq<Level>, levels: seq<Level>, participants: seq<nat>, everyone: bool)
    requires |levels| == |bare| && GrownFrom(bare, |participants|)
    requires forall l :: 0 <= l < |bare| ==> Copied(bare[l], levels[l], participants, everyone)
    ensures GrownFrom(levels, |participants|)
  {
    forall l | 0 <= l < |levels|
      ensures |levels[l]| == Pow2(l) && ValidLevel(levels[l], |participants|) && HelpersApart(levels[l])
      ensures Nodes(levels[l]) == Nodes(bare[l]) && Lefts(levels[l]) == Lefts(bare[l])
    {
      assert Copied(bare[l], levels[l], participants, everyone);
      LevelCopy(bare[l], levels[l], |participants|);
    }
  }

  method AddIdOffsets(bare: seq<Level>, participants: seq<nat>, everyone: bool) returns (levels: seq<Level>)
    requires GrownFrom(bare, |participants|)
    ensures |levels| == |bare| && forall l :: 0 <= l < |bare| ==> Copied(bare[l], levels[l], participants, everyone)
  {
    levels := [];
    var l: nat := 0;
    while l < |bare|
      invariant l <= |bare| && |levels| == l
      invariant forall k :: 0 <= k < l ==> Copied(bare[k], levels[k], participants, everyone)
    {
      var level := LevelOffsets(bare[l], participants, everyone);
      levels := levels + [level];
      l := l + 1;
    }
  }

  /** The node tree of an allocation of n sockets: as many levels as doublings fit in n. */
  method CreateTree(siblings: seq<seq<nat>>, participants: seq<nat>, everyone: bool) returns (levels: seq<Level>)
    requires AllSiblings(siblings, |participants|) && 0 < |participants| < 0x1_0000_0000
    ensures Pow2(|levels|) <= |participants| < 2 * Pow2(|levels|)
    ensures GrownFrom(levels, |participants|) && GreedyTree(levels, siblings, |participants|)
    ensures forall l :: 0 <= l < |levels| ==> AllOffsets(levels[l], participants, everyone)
    ensures forall l :: 0 <= l < |levels| ==> SmallHelp(levels[l], |participants|)
    ensures RoomyNumber(|participants|) ==> RoomyTree(levels, |participants|)
  {
    var n := |participants|;
    var nLvls := FloorLog2(n);
    var bare := BuildLevels(n, nLvls, siblings);
    levels := AddIdOffsets(bare, participants, everyone);
    CopiedTree(bare, levels, participants, everyone);
    CopiedHelp(bare, levels, participants, everyone);
    CopiedGreedy(bare, levels, participants, everyone, siblings);
    if RoomyNumber(n) { SmallTreesAreRoomy(levels, n); }
  }

  lemma CopiedHelp(bare: seq<Level>, levels: seq<Level>, participants: seq<nat>, everyone: bool)
    requires |levels| == |bare| && forall l :: 0 <= l < |bare| ==> SmallHelp(bare[l], |participants|)
    requires forall l :: 0 <= l < |bare| ==> Copied(bare[l], levels[l], participants, everyone)
    ensures forall l :: 0 <= l < |levels| ==>
              AllOffsets(levels[l], participants, everyone) && SmallHelp(levels[l], |participants|)
  {
    forall l | 0 <= l < |levels|
      ensures AllOffsets(levels[l], participants, everyone) && SmallHelp(levels[l], |participants|)
    {
      assert Copied(bare[l], levels[l], participants, everyone) && SmallHelp(bare[l], |participants|);
      LevelCopy(bare[l], levels[l], |participants|);
    }
  }

  /** No pair has more helpers than its room, which is at most two, and below level 0 every socket has a place. */
  ghost predicate RoomyTree(levels: seq<Level>, n: nat) {
    && (forall l :: 0 <= l < |levels| ==> AtMostHelp(levels[l], 2) && RoomyLevel(levels[l], n))
    && (forall l :: 0 < l < |levels| ==> AllPlaced(levels[l], n))
  }

  ghost predicate RoomyLevel(level: Level, n: nat) {
    0 < 2 * |level| <= n && AllHave(level, HelpRoom(n - 2 * |level|, |level|))
  }

  lemma RoomyOne(level: Level, n: nat, pairs: nat)
    requires SmallHelp(level, n) && |level| == pairs
    requires HelpFits(n - 2 * pairs, pairs) && RoomSuffices(n - 2 * pairs, pairs)
    ensures AtMostHelp(level, 2) && RoomyLevel(level, n)
    ensures n - 2 * pairs == HelpRoom(n - 2 * pairs, pairs) * pairs ==> AllPlaced(level, n)
  {}

  /** The numbers of sockets for which every level's helpers fill their room and nobody is idle below level 0. */
  predicate RoomyNumber(n: nat) {
    0 < n <= 8 && n != 5 && n != 7
  }

  lemma SmallTreeLevel(levels: seq<Level>, n: nat, l: nat)
    requires GrownFrom(levels, n) && RoomyNumber(n) && l < |levels| && SmallHelp(levels[l], n)
    ensures AtMostHelp(levels[l], 2) && RoomyLevel(levels[l], n) && (l > 0 ==> AllPlaced(levels[l], n))
  {
    assert GoodLevel(levels[l], Pow2(l), n);
    SmallPowers(l);
    SmallRoom(n, Pow2(l));
    RoomyOne(levels[l], n, Pow2(l));
  }

  lemma SmallTreesAreRoomy(levels: seq<Level>, n: nat)
    requires GrownFrom(levels, n) && RoomyNumber(n)
    requires forall l :: 0 <= l < |levels| ==> SmallHelp(levels[l], n)
    ensures RoomyTree(levels, n)
  {
    forall l | 0 <= l < |levels|
      ensures AtMostHelp(levels[l], 2) && RoomyLevel(levels[l], n) && (l > 0 ==> AllPlaced(levels[l], n))
    {
      SmallTreeLevel(levels, n, l);
    }
  }

  lemma SmallPowers(l: nat)
    requires Pow2(l) <= 4
    ensures Pow2(l) == 1 || Pow2(l) == 2 || Pow2(l) == 4
    ensures l > 0 ==> Pow2(l) > 1
  {
    assert Pow2(0) == 1 && Pow2(1) == 2 && Pow2(2) == 4 && Pow2(3) == 2 * Pow2(2);
    if l > 3 { PowersGrow(4, l); }
  }

  lemma SmallRoom(n: nat, pairs: nat)
    requires RoomyNumber(n) && (pairs == 1 || pairs == 2 || pairs == 4) && 2 * pairs <= n
    ensures HelpFits(n - 2 * pairs, pairs) && RoomSuffices(n - 2 * pairs, pairs)
    ensures pairs > 1 ==> n - 2 * pairs == HelpRoom(n - 2 * pairs, pairs) * pairs
  {
    if pairs > 1 { DivIs(n - 2 * pairs, pairs, if n == 2 * pairs then 0 else if n == 6 then 1 else 2); }
  }

  lemma RoomSizes(n: nat, pairs: nat)
    requires 2 * pairs <= n && pairs > 0
    ensures pairs == 1 ==> RoomSuffices(n - 2 * pairs, pairs)
    ensures pairs == 2 ==> (RoomSuffices(n - 2 * pairs, pairs) <==> n <= 6 || n == 8)
    ensures pairs == 4 && n <= 8 ==> RoomSuffices(n - 2 * pairs, pairs)
  {}

  lemma AtLeastTwoLevels(n: nat, nLvls: nat)
    requires 4 <= n < 2 * Pow2(nLvls)
    ensures nLvls >= 2
  {
    assert Pow2(0) == 1 && Pow2(1) == 2;
  }

  /** Level l's helpers fill its room, when that is large enough. */
  lemma RoomAt(levels: seq<Level>, n: nat, l: nat)
    requires GrownFrom(levels, n) && l < |levels| && SmallHelp(levels[l], n)
    ensures |levels[l]| == Pow2(l) > 0 && 2 * Pow2(l) <= n
    ensures RoomyLevel(levels[l], n) <==> RoomSuffices(n - 2 * Pow2(l), Pow2(l))
  {
    assert GoodLevel(levels[l], Pow2(l), n);
  }

  lemma RoomFitsAt(levels: seq<Level>, n: nat, l: nat)
    requires GrownFrom(levels, n) && l < |levels| && SmallHelp(levels[l], n) && (n <= 6 || n == 8)
    ensures RoomyLevel(levels[l], n)
  {
    RoomAt(levels, n, l);
    var pairs := Pow2(l);
    SmallPowers(l);
    RoomSizes(n, pairs);
  }

  lemma NoRoomAtOne(levels: seq<Level>, n: nat)
    requires GrownFrom(levels, n) && 1 < |levels| && SmallHelp(levels[1], n) && (n == 7 || n > 8)
    ensures !RoomyLevel(levels[1], n)
  {
    RoomAt(levels, n, 1);
    assert Pow2(0) == 1 && Pow2(1) == 2;
    RoomSizes(n, 2);
  }

  /** No level's helpers exceed their room exactly for up to six sockets and for eight. */
  lemma RoomExactly(levels: seq<Level>, n: nat)
    requires GrownFrom(levels, n) && n > 0 && Pow2(|levels|) <= n < 2 * Pow2(|levels|)
    requires forall l :: 0 <= l < |levels| ==> SmallHelp(levels[l], n)
    ensures (forall l :: 0 <= l < |levels| ==> RoomyLevel(levels[l], n)) <==> n <= 6 || n == 8
  {
    if n <= 6 || n == 8 {
      forall l | 0 <= l < |levels| ensures RoomyLevel(levels[l], n) { RoomFitsAt(levels, n, l); }
    } else {
      AtLeastTwoLevels(n, |levels|);
      NoRoomAtOne(levels, n);
    }
  }
}
