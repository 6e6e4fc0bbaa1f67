/** The tree of context groups: nodes in an arena, each with a link to its parent. */
module TopologyTree {
  import opened LatencyTable

  datatype Kind = Context | Group | SocketGroup

  /** A context, a group or a socket; `parent` is -1 for none. */
  datatype Node = Node(kind: Kind, level: nat, seqId: nat, latency: int, parent: int) {
    /** The public identifier. */
    function Id(): nat { level * 10000 + seqId }
  }

  /** The k-th ancestor of context x, -1 when there is none. */
  function Anc(nodes: seq<Node>, x: int, k: nat): int {
    if k == 0 then x
    else
      var a := Anc(nodes, x, k - 1);
      if 0 <= a < |nodes| then nodes[a].parent else -1
  }

  ghost predicate At(nodes: seq<Node>, a: int, level: nat) {
    0 <= a < |nodes| && nodes[a].level == level
  }

  /** Levels 0 to depth of context x's chain exist. */
  ghost predicate Climbs(nodes: seq<Node>, x: nat, depth: nat) {
    forall k :: 0 <= k <= depth ==> At(nodes, Anc(nodes, x, k), k)
  }

  ghost predicate AllClimb(nodes: seq<Node>, n: nat, depth: nat) {
    n <= |nodes| && forall x :: 0 <= x < n ==> Climbs(nodes, x, depth)
  }

  /** Two contexts share their ancestor at level k exactly when they are near at that level's latency. */
  ghost predicate SharesAt(nodes: seq<Node>, lat: Table, med: seq<int>, k: nat, x: nat, y: nat) {
    k < |med| && (Anc(nodes, x, k) == Anc(nodes, y, k) <==> Near(lat, med[k], x, y))
  }

  ghost predicate AllShare(nodes: seq<Node>, lat: Table, med: seq<int>, n: nat, depth: nat) {
    forall k, x, y :: 0 <= k <= depth && 0 <= x < n && 0 <= y < n ==> SharesAt(nodes, lat, med, k, x, y)
  }

  /** Nodes keep their latency, and no two have the same level and number. */
  ghost predicate Labelled(nodes: seq<Node>, med: seq<int>, n: nat) {
    && n <= |nodes|
    && (forall a :: 0 <= a < |nodes| ==> LabelledAt(nodes, med, n, a))
    && (forall a, b :: 0 <= a < b < |nodes| ==> Unlike(nodes[a], nodes[b]))
  }

  ghost predicate LabelledAt(nodes: seq<Node>, med: seq<int>, n: nat, a: nat)
    requires a < |nodes|
  {
    && nodes[a].level < |med| && nodes[a].latency == med[nodes[a].level] && nodes[a].seqId < 10000
    && (a < n <==> nodes[a].level == 0) && (a < n ==> nodes[a].seqId == a && nodes[a].kind == Context)
    && -1 <= nodes[a].parent < |nodes|
  }

  ghost predicate Unlike(p: Node, q: Node) {
    p.level != q.level || p.seqId != q.seqId
  }

  /** Identifiers tell nodes apart. */
  lemma IdsDiffer(nodes: seq<Node>, med: seq<int>, n: nat, a: nat, b: nat)
    requires Labelled(nodes, med, n) && a < |nodes| && b < |nodes|
    ensures nodes[a].Id() == nodes[b].Id() <==> a == b
  {
    assert LabelledAt(nodes, med, n, a) && LabelledAt(nodes, med, n, b);
    assert a < b ==> Unlike(nodes[a], nodes[b]);
    assert b < a ==> Unlike(nodes[b], nodes[a]);
  }

  // --------------------------------------------------------- linking a new top node

  /** A new parent for nodes of one level leaves all chains below that level alone. */
  lemma {:induction false} AncKept(nodes: seq<Node>, nodes': seq<Node>, x: nat, depth: nat, k: nat)
    requires Climbs(nodes, x, depth) && k <= depth && |nodes| <= |nodes'|
    requires forall a :: 0 <= a < |nodes| && nodes[a].level < depth ==> nodes'[a].parent == nodes[a].parent
    ensures Anc(nodes', x, k) == Anc(nodes, x, k)
  {
    if k > 0 {
      AncKept(nodes, nodes', x, depth, k - 1);
      assert At(nodes, Anc(nodes, x, k - 1), k - 1);
    }
  }

  lemma HasParent(nodes: seq<Node>, x: nat, depth: nat, k: nat)
    requires Climbs(nodes, x, depth) && k <= depth
    ensures At(nodes, Anc(nodes, x, k), k) && (k < depth ==> 0 <= nodes[Anc(nodes, x, k)].parent)
  {
    if k < depth { assert At(nodes, Anc(nodes, x, k + 1), k + 1); }
  }

  /** The root of a chain of the given depth: climbing stops there, or below `stop`. */
  method Climb(nodes: seq<Node>, x: nat, stop: int, ghost depth: nat) returns (a: nat)
    requires Climbs(nodes, x, depth)
    requires nodes[Anc(nodes, x, depth)].parent == -1 || nodes[Anc(nodes, x, depth)].parent == stop
    requires forall b :: 0 <= b < |nodes| && nodes[b].level < depth ==> nodes[b].parent != stop
    ensures a < |nodes| && a == Anc(nodes, x, depth)
  {
    a := x;
    ghost var k: nat := 0;
    assert At(nodes, Anc(nodes, x, 0), 0) && At(nodes, Anc(nodes, x, depth), depth);
    while nodes[a].parent != -1 && nodes[a].parent != stop
      invariant k <= depth && a < |nodes| && a == Anc(nodes, x, k) && nodes[a].level == k
      decreases depth - k
    {
      assert At(nodes, Anc(nodes, x, k + 1), k + 1);
      a := nodes[a].parent;
      k := k + 1;
    }
    HasParent(nodes, x, depth, k);
  }

  /** `nodes` is `nodes0` with one more node, which has become the parent of the roots of
      the first i members' chains and of no other node. */
  ghost predicate Linking(nodes0: seq<Node>, nodes: seq<Node>, top: Node, members: seq<nat>, i: nat, depth: nat) {
    && |nodes| == |nodes0| + 1 && nodes[|nodes0|] == top && top.parent == -1 && i <= |members|
    && (forall a :: 0 <= a < |nodes0| ==> Relinked(nodes0, nodes, members, i, depth, a))
    && (forall j :: 0 <= j < i ==> RootLinked(nodes0, nodes, members[j], depth))
  }

  ghost predicate Relinked(nodes0: seq<Node>, nodes: seq<Node>, members: seq<nat>, i: nat, depth: nat, a: nat) {
    && a < |nodes0| < |nodes| && i <= |members|
    && (nodes[a] == nodes0[a]
        || (nodes[a] == nodes0[a].(parent := |nodes0|) && exists j ::
            0 <= j < i && a == Anc(nodes0, members[j], depth)))
  }

  ghost predicate RootLinked(nodes0: seq<Node>, nodes: seq<Node>, h: nat, depth: nat) {
    var a := Anc(nodes0, h, depth);
    0 <= a < |nodes| && nodes[a].parent == |nodes0|
  }

  lemma RelinkedLevels(nodes0: seq<Node>, nodes: seq<Node>, top: Node, members: seq<nat>, i: nat, depth: nat, n: nat)
    requires Linking(nodes0, nodes, top, members, i, depth) && AllClimb(nodes0, n, depth)
    requires forall h :: h in members ==> h < n
    ensures forall a :: 0 <= a < |nodes0| ==> nodes[a].level == nodes0[a].level
    ensures forall a :: 0 <= a < |nodes0| && nodes0[a].level != depth ==> nodes[a].parent == nodes0[a].parent
  {
    forall a | 0 <= a < |nodes0|
      ensures nodes[a].level == nodes0[a].level && (nodes0[a].level != depth ==> nodes[a].parent == nodes0[a].parent)
    {
      assert Relinked(nodes0, nodes, members, i, depth, a);
      if nodes[a] != nodes0[a] {
        var j :| 0 <= j < i && a == Anc(nodes0, members[j], depth);
        assert members[j] in members && Climbs(nodes0, members[j], depth);
        assert At(nodes0, Anc(nodes0, members[j], depth), depth);
      }
    }
  }

  /** All chains up to `depth` are as before. */
  lemma ChainsKept(nodes0: seq<Node>, nodes: seq<Node>, top: Node, members: seq<nat>, i: nat, depth: nat, n: nat,
                   x: nat, k: nat)
    requires Linking(nodes0, nodes, top, members, i, depth) && AllClimb(nodes0, n, depth)
    requires (forall h :: h in members ==> h < n) && x < n && k <= depth
    ensures Anc(nodes, x, k) == Anc(nodes0, x, k) && At(nodes, Anc(nodes, x, k), k)
  {
    RelinkedLevels(nodes0, nodes, top, members, i, depth, n);
    assert Climbs(nodes0, x, depth);
    AncKept(nodes0, nodes, x, depth, k);
    assert At(nodes0, Anc(nodes0, x, k), k);
  }

  /** What linking the first i members needs: all members' roots were free. */
  ghost predicate Linkable(nodes0: seq<Node>, members: seq<nat>, n: nat, depth: nat) {
    && AllClimb(nodes0, n, depth) && (forall a :: 0 <= a < |nodes0| ==> nodes0[a].parent < |nodes0|)
    && (forall h :: h in members ==> h < n && FreeRoot(nodes0, h, depth))
  }

  ghost predicate FreeRoot(nodes: seq<Node>, x: nat, depth: nat) {
    At(nodes, Anc(nodes, x, depth), depth) && nodes[Anc(nodes, x, depth)].parent == -1
  }

  /** The root that the next member finds: its own, or below the new node if a member
      with the same root came before. */
  lemma NextRoot(nodes0: seq<Node>, nodes: seq<Node>, top: Node, members: seq<nat>, i: nat, depth: nat, n: nat)
    requires Linking(nodes0, nodes, top, members, i, depth) && Linkable(nodes0, members, n, depth) && i < |members|
    ensures Climbs(nodes, members[i], depth) && Anc(nodes, members[i], depth) == Anc(nodes0, members[i], depth)
    ensures nodes[Anc(nodes, members[i], depth)].parent == -1 || nodes[Anc(nodes, members[i], depth)].parent == |nodes0|
    ensures forall b :: 0 <= b < |nodes| && nodes[b].level < depth ==> nodes[b].parent != |nodes0|
  {
    var h := members[i];
    assert h in members && FreeRoot(nodes0, h, depth);
    forall k | 0 <= k <= depth ensures At(nodes, Anc(nodes, h, k), k) {
      ChainsKept(nodes0, nodes, top, members, i, depth, n, h, k);
    }
    ChainsKept(nodes0, nodes, top, members, i, depth, n, h, depth);
    assert Relinked(nodes0, nodes, members, i, depth, Anc(nodes0, h, depth));
    RelinkedLevels(nodes0, nodes, top, members, i, depth, n);
  }

  lemma LinkStep(nodes0: seq<Node>, nodes: seq<Node>, top: Node, members: seq<nat>, i: nat, depth: nat)
    requires Linking(nodes0, nodes, top, members, i, depth) && i < |members|
    requires FreeRoot(nodes0, members[i], depth)
    ensures var a := Anc(nodes0, members[i], depth);
            Linking(nodes0, nodes[a := nodes[a].(parent := |nodes0|)], top, members, i + 1, depth)
  {
    var a := Anc(nodes0, members[i], depth);
    var nodes' := nodes[a := nodes[a].(parent := |nodes0|)];
    var i' := i + 1;
    forall b | 0 <= b < |nodes0| ensures Relinked(nodes0, nodes', members, i', depth, b) {
      assert Relinked(nodes0, nodes, members, i, depth, b);
    }
    forall j | 0 <= j < i + 1 ensures RootLinked(nodes0, nodes', members[j], depth) {
      if j < i { assert RootLinked(nodes0, nodes, members[j], depth); }
    }
  }

  /** A group takes over its members: each climbs to the root of its chain, which gets
      the group as parent unless it is the group already. */
  method LinkGroup(nodes0: seq<Node>, top: Node, members: seq<nat>, ghost n: nat, ghost depth: nat)
    returns (nodes: seq<Node>)
    requires Linkable(nodes0, members, n, depth) && top.parent == -1
    ensures Linking(nodes0, nodes, top, members, |members|, depth)
  {
    nodes := nodes0 + [top];
    var i: nat := 0;
    while i < |members|
      invariant i <= |members| && Linking(nodes0, nodes, top, members, i, depth)
    {
      assert members[i] in members && FreeRoot(nodes0, members[i], depth);
      NextRoot(nodes0, nodes, top, members, i, depth, n);
      LinkStep(nodes0, nodes, top, members, i, depth);
      var cur := RootOf(nodes, members[i], depth, |nodes0|);
      if cur != |nodes0| {
        nodes := nodes[cur := nodes[cur].(parent := |nodes0|)];
      } else {
        ghost var a := Anc(nodes0, members[i], depth);
        assert nodes[a := nodes[a].(parent := |nodes0|)] == nodes;
      }
      i := i + 1;
    }
  }

  /** Following parents to the end. */
  method RootOf(nodes: seq<Node>, x: nat, ghost depth: nat, ghost stop: nat) returns (a: nat)
    requires Climbs(nodes, x, depth) && stop < |nodes| && nodes[stop].parent == -1
    requires nodes[Anc(nodes, x, depth)].parent == -1 || nodes[Anc(nodes, x, depth)].parent == stop
    ensures a == if nodes[Anc(nodes, x, depth)].parent == -1 then Anc(nodes, x, depth) else stop
  {
    a := x;
    ghost var k: nat := 0;
    assert At(nodes, Anc(nodes, x, 0), 0) && At(nodes, Anc(nodes, x, depth), depth);
    while nodes[a].parent != -1
      invariant a < |nodes| && k <= depth + 1
      invariant k <= depth ==> a == Anc(nodes, x, k)
      invariant k == depth + 1 ==> a == stop && nodes[Anc(nodes, x, depth)].parent == stop
      decreases depth + 1 - k
    {
      if k < depth { assert At(nodes, Anc(nodes, x, k + 1), k + 1); }
      a := nodes[a].parent;
      k := k + 1;
    }
    if k <= depth { HasParent(nodes, x, depth, k); }
  }

  /** A socket does the same, but its members stop climbing below it. */
  method LinkSocket(nodes0: seq<Node>, top: Node, members: seq<nat>, ghost n: nat, ghost depth: nat)
    returns (nodes: seq<Node>)
    requires Linkable(nodes0, members, n, depth) && top.parent == -1
    ensures Linking(nodes0, nodes, top, members, |members|, depth)
  {
    nodes := nodes0 + [top];
    var i: nat := 0;
    while i < |members|
      invariant i <= |members| && Linking(nodes0, nodes, top, members, i, depth)
    {
      assert members[i] in members && FreeRoot(nodes0, members[i], depth);
      NextRoot(nodes0, nodes, top, members, i, depth, n);
      LinkStep(nodes0, nodes, top, members, i, depth);
      var cur := Climb(nodes, members[i], |nodes0|, depth);
      nodes := nodes[cur := nodes[cur].(parent := |nodes0|)];
      i := i + 1;
    }
  }

  // ------------------------------------------------------------- a level in progress

  /** Levels up to `depth` are complete; the contexts marked as processed have an ancestor
      at the next level, the others' chains end. */
  ghost predicate LevelState(nodes: seq<Node>, lat: Table, med: seq<int>, n: nat, depth: nat, done: seq<bool>,
                             seqId: nat) {
    && |done| == n && depth + 1 < |med| && Labelled(nodes, med, n)
    && AllClimb(nodes, n, depth) && AllShare(nodes, lat, med, n, depth)
    && (forall a :: 0 <= a < |nodes| ==> UpTo(nodes[a], depth, seqId))
    && (forall x :: 0 <= x < n ==> Progress(nodes, depth, done, x))
    && (forall x, y :: 0 <= x < n && 0 <= y < n && done[x] ==> DonePair(nodes, lat, med, depth, done, x, y))
  }

  /** No node is above the level in progress, and that level's numbers are used in order. */
  ghost predicate UpTo(node: Node, depth: nat, seqId: nat) {
    node.level <= depth + 1 && (node.level == depth + 1 ==> node.seqId < seqId)
  }

  ghost predicate Progress(nodes: seq<Node>, depth: nat, done: seq<bool>, x: nat)
    requires x < |done|
  {
    if done[x] then FreeRoot(nodes, x, depth + 1) else FreeRoot(nodes, x, depth)
  }

  /** Classes are processed whole, and share the new ancestor exactly within the class. */
  ghost predicate DonePair(nodes: seq<Node>, lat: Table, med: seq<int>, depth: nat, done: seq<bool>, x: nat, y: nat)
    requires x < |done| && y < |done| && depth + 1 < |med|
  {
    && (Near(lat, med[depth + 1], x, y) ==> done[y])
    && (done[y] ==> SharesAt(nodes, lat, med, depth + 1, x, y))
  }

  /** The level is finished. */
  lemma LevelComplete(nodes: seq<Node>, lat: Table, med: seq<int>, n: nat, depth: nat, next: nat, done: seq<bool>,
                      seqId: nat)
    requires LevelState(nodes, lat, med, n, depth, done, seqId) && next == depth + 1 && forall x :: 0 <= x < n ==>
             done[x]
    ensures AllClimb(nodes, n, next) && AllShare(nodes, lat, med, n, next)
    ensures forall x :: 0 <= x < n ==> FreeRoot(nodes, x, next)
  {
    forall x | 0 <= x < n ensures Climbs(nodes, x, next) {
      assert Progress(nodes, depth, done, x) && Climbs(nodes, x, depth);
    }
    forall k, x, y | 0 <= k <= next && 0 <= x < n && 0 <= y < n ensures SharesAt(nodes, lat, med, k, x, y) {
      if k == next { assert DonePair(nodes, lat, med, depth, done, x, y); }
    }
    forall x | 0 <= x < n ensures FreeRoot(nodes, x, next) { assert Progress(nodes, depth, done, x); }
  }

  /** The next level starts with nothing processed. */
  lemma LevelStarts(nodes: seq<Node>, lat: Table, med: seq<int>, n: nat, depth: nat, done: seq<bool>)
    requires |done| == n && depth + 1 < |med| && Labelled(nodes, med, n)
    requires AllClimb(nodes, n, depth) && AllShare(nodes, lat, med, n, depth)
    requires forall a :: 0 <= a < |nodes| ==> nodes[a].level <= depth
    requires forall x :: 0 <= x < n ==> FreeRoot(nodes, x, depth) && !done[x]
    ensures LevelState(nodes, lat, med, n, depth, done, 0)
  {}

  // ---------------------------------------------------------- a class joins the level

  /** The members are x0's whole class, none of it processed yet. */
  ghost predicate FreshClass(lat: Table, t: int, n: nat, done: seq<bool>, x0: nat, members: seq<nat>) {
    && |done| == n && x0 < n && !done[x0]
    && forall y :: 0 <= y < n ==> FreshMember(lat, t, done, x0, members, y)
  }

  ghost predicate FreshMember(lat: Table, t: int, done: seq<bool>, x0: nat, members: seq<nat>, y: nat)
    requires y < |done|
  {
    (y in members <==> Near(lat, t, x0, y)) && (y in members ==> !done[y])
  }

  /** The first unprocessed context lists its class. */
  lemma FirstIsFresh(nodes: seq<Node>, lat: Table, med: seq<int>, n: nat, depth: nat, done: seq<bool>, seqId: nat,
                     x0: nat)
    requires LevelState(nodes, lat, med, n, depth, done, seqId) && Distances(lat, n)
    requires x0 < n && !done[x0] && forall y :: 0 <= y < x0 ==> done[y]
    ensures FreshClass(lat, med[depth + 1], n, done, x0, ClassList(lat, med[depth + 1], x0, n))
  {
    var t := med[depth + 1];
    var members := ClassList(lat, t, x0, n);
    forall y | 0 <= y < n ensures FreshMember(lat, t, done, x0, members, y) {
      NearSym(lat, n, t, x0, y);
      if done[y] { assert DonePair(nodes, lat, med, depth, done, y, x0); }
    }
  }

  lemma FreshLinkable(nodes: seq<Node>, lat: Table, med: seq<int>, n: nat, depth: nat, done: seq<bool>, seqId: nat,
                      x0: nat, members: seq<nat>)
    requires LevelState(nodes, lat, med, n, depth, done, seqId)
    requires FreshClass(lat, med[depth + 1], n, done, x0, members) && forall h :: h in members ==> h < n
    ensures Linkable(nodes, members, n, depth)
  {
    forall a | 0 <= a < |nodes| ensures nodes[a].parent < |nodes| { assert LabelledAt(nodes, med, n, a); }
    forall h | h in members ensures FreeRoot(nodes, h, depth) {
      assert FreshMember(lat, med[depth + 1], done, x0, members, h) && Progress(nodes, depth, done, h);
    }
  }

  /** The situation after a class has joined. */
  ghost predicate Joined(nodes0: seq<Node>, nodes: seq<Node>, lat: Table, med: seq<int>, n: nat, depth: nat,
                         done: seq<bool>, seqId: nat, x0: nat, members: seq<nat>, top: Node) {
    && LevelState(nodes0, lat, med, n, depth, done, seqId) && seqId < 10000
    && FreshClass(lat, med[depth + 1], n, done, x0, members) && (forall h :: h in members ==> h < n)
    && Linking(nodes0, nodes, top, members, |members|, depth)
    && top.kind != Context && top.level == depth + 1 && top.seqId == seqId && top.latency == med[depth + 1]
    && Linkable(nodes0, members, n, depth)
  }

  /** A member's root has the new node as parent; any other root is as before. */
  lemma JoinedRoot(nodes0: seq<Node>, nodes: seq<Node>, lat: Table, med: seq<int>, n: nat, depth: nat,
                   done: seq<bool>, seqId: nat, x0: nat, members: seq<nat>, top: Node, x: nat)
    requires Joined(nodes0, nodes, lat, med, n, depth, done, seqId, x0, members, top) && x < n
    requires 0 <= med[depth] <= med[depth + 1] && Distances(lat, n) && ClassesAt(lat, n, med[depth + 1])
    ensures Anc(nodes, x, depth) == Anc(nodes0, x, depth) && At(nodes, Anc(nodes, x, depth), depth)
    ensures x in members ==> Anc(nodes, x, depth + 1) == |nodes0|
    ensures x !in members ==> Anc(nodes, x, depth + 1) == Anc(nodes0, x, depth + 1)
  {
    var a := Anc(nodes0, x, depth);
    ChainsKept(nodes0, nodes, top, members, |members|, depth, n, x, depth);
    if x in members {
      var j :| 0 <= j < |members| && members[j] == x;
      assert RootLinked(nodes0, nodes, members[j], depth);
    } else {
      assert At(nodes0, a, depth) by { assert Climbs(nodes0, x, depth); }
      assert Relinked(nodes0, nodes, members, |members|, depth, a);
      if nodes[a] != nodes0[a] {
        var j :| 0 <= j < |members| && a == Anc(nodes0, members[j], depth);
        assert members[j] in members;
        SharedRootNear(nodes0, lat, med, n, depth, done, x0, members, members[j], x);
      }
    }
  }

  lemma SharedRootNear(nodes0: seq<Node>, lat: Table, med: seq<int>, n: nat, depth: nat, done: seq<bool>,
                       x0: nat, members: seq<nat>, h: nat, x: nat)
    requires AllShare(nodes0, lat, med, n, depth) && depth + 1 < |med| && x < n && h < n && h in members
    requires FreshClass(lat, med[depth + 1], n, done, x0, members)
    requires 0 <= med[depth] <= med[depth + 1] && Distances(lat, n) && ClassesAt(lat, n, med[depth + 1])
    requires Anc(nodes0, x, depth) == Anc(nodes0, h, depth)
    ensures x in members
  {
    assert SharesAt(nodes0, lat, med, depth, h, x);
    assert FreshMember(lat, med[depth + 1], done, x0, members, h)
           && FreshMember(lat, med[depth + 1], done, x0, members, x);
    NearTrans(lat, n, med[depth + 1], x0, h, x);
  }

  function Mark(done: seq<bool>, members: seq<nat>): (done': seq<bool>)
    ensures |done'| == |done| && forall y :: 0 <= y < |done| ==> done'[y] == (done[y] || y in members)
  {
    seq(|done|, y requires 0 <= y < |done| => done[y] || y in members)
  }

  lemma JoinedLabels(nodes0: seq<Node>, nodes: seq<Node>, lat: Table, med: seq<int>, n: nat, depth: nat,
                     done: seq<bool>, seqId: nat, x0: nat, members: seq<nat>, top: Node)
    requires Joined(nodes0, nodes, lat, med, n, depth, done, seqId, x0, members, top)
    ensures Labelled(nodes, med, n) && forall a :: 0 <= a < |nodes| ==> UpTo(nodes[a], depth, seqId + 1)
  {
    forall a | 0 <= a < |nodes|
      ensures LabelledAt(nodes, med, n, a) && UpTo(nodes[a], depth, seqId + 1)
    {
      if a < |nodes0| {
        assert LabelledAt(nodes0, med, n, a) && UpTo(nodes0[a], depth, seqId);
        assert Relinked(nodes0, nodes, members, |members|, depth, a);
      }
    }
    forall a, b | 0 <= a < b < |nodes| ensures Unlike(nodes[a], nodes[b]) {
      assert Relinked(nodes0, nodes, members, |members|, depth, a) && UpTo(nodes0[a], depth, seqId);
      if b < |nodes0| {
        assert Unlike(nodes0[a], nodes0[b]) && Relinked(nodes0, nodes, members, |members|, depth, b);
      }
    }
  }

  lemma JoinedPairs(nodes0: seq<Node>, nodes: seq<Node>, lat: Table, med: seq<int>, n: nat, depth: nat,
                    done: seq<bool>, seqId: nat, x0: nat, members: seq<nat>, top: Node, x: nat, y: nat)
    requires Joined(nodes0, nodes, lat, med, n, depth, done, seqId, x0, members, top) && x < n && y < n
    requires 0 <= med[depth] <= med[depth + 1] && Distances(lat, n) && ClassesAt(lat, n, med[depth + 1])
    requires Mark(done, members)[x]
    ensures DonePair(nodes, lat, med, depth, Mark(done, members), x, y)
  {
    var t := med[depth + 1];
    JoinedRoot(nodes0, nodes, lat, med, n, depth, done, seqId, x0, members, top, x);
    JoinedRoot(nodes0, nodes, lat, med, n, depth, done, seqId, x0, members, top, y);
    assert FreshMember(lat, t, done, x0, members, x) && FreshMember(lat, t, done, x0, members, y);
    NearSym(lat, n, t, x, y);
    if x in members {
      NearTrans(lat, n, t, x0, x, y);
      if done[y] { JoinedOld(nodes0, lat, med, n, depth, done, seqId, y); }
    } else {
      JoinedOld(nodes0, lat, med, n, depth, done, seqId, x);
      assert DonePair(nodes0, lat, med, depth, done, x, y);
      if y in members { NearTrans(lat, n, t, x0, y, x); }
    }
  }

  lemma JoinedOld(nodes0: seq<Node>, lat: Table, med: seq<int>, n: nat, depth: nat, done: seq<bool>, seqId: nat, x: nat)
    requires LevelState(nodes0, lat, med, n, depth, done, seqId) && x < n && done[x]
    ensures 0 <= Anc(nodes0, x, depth + 1) < |nodes0|
  {
    assert Progress(nodes0, depth, done, x);
  }

  lemma JoinedProgress(nodes0: seq<Node>, nodes: seq<Node>, lat: Table, med: seq<int>, n: nat, depth: nat,
                       done: seq<bool>, seqId: nat, x0: nat, members: seq<nat>, top: Node, x: nat)
    requires Joined(nodes0, nodes, lat, med, n, depth, done, seqId, x0, members, top) && x < n
    requires 0 <= med[depth] <= med[depth + 1] && Distances(lat, n) && ClassesAt(lat, n, med[depth + 1])
    ensures Progress(nodes, depth, Mark(done, members), x)
  {
    JoinedRoot(nodes0, nodes, lat, med, n, depth, done, seqId, x0, members, top, x);
    assert Progress(nodes0, depth, done, x) && FreshMember(lat, med[depth + 1], done, x0, members, x);
    RelinkedLevels(nodes0, nodes, top, members, |members|, depth, n);
    if x !in members && !done[x] {
      var a := Anc(nodes0, x, depth);
      assert Relinked(nodes0, nodes, members, |members|, depth, a);
      assert Anc(nodes, x, depth + 1) == nodes[a].parent;
    }
  }

  /** A class that joins keeps the level in order, with its members processed. */
  lemma ClassJoins(nodes0: seq<Node>, nodes: seq<Node>, lat: Table, med: seq<int>, n: nat, depth: nat,
                   done: seq<bool>, seqId: nat, x0: nat, members: seq<nat>, top: Node)
    requires Joined(nodes0, nodes, lat, med, n, depth, done, seqId, x0, members, top)
    requires 0 <= med[depth] <= med[depth + 1] && Distances(lat, n) && ClassesAt(lat, n, med[depth + 1])
    ensures LevelState(nodes, lat, med, n, depth, Mark(done, members), seqId + 1)
  {
    JoinedLabels(nodes0, nodes, lat, med, n, depth, done, seqId, x0, members, top);
    forall x, k | 0 <= x < n && 0 <= k <= depth
      ensures Anc(nodes, x, k) == Anc(nodes0, x, k) && At(nodes, Anc(nodes, x, k), k)
    {
      ChainsKept(nodes0, nodes, top, members, |members|, depth, n, x, k);
    }
    forall k, x, y | 0 <= k <= depth && 0 <= x < n && 0 <= y < n ensures SharesAt(nodes, lat, med, k, x, y) {
      assert SharesAt(nodes0, lat, med, k, x, y);
    }
    forall x | 0 <= x < n ensures Progress(nodes, depth, Mark(done, members), x) {
      JoinedProgress(nodes0, nodes, lat, med, n, depth, done, seqId, x0, members, top, x);
    }
    forall x, y | 0 <= x < n && 0 <= y < n && Mark(done, members)[x]
      ensures DonePair(nodes, lat, med, depth, Mark(done, members), x, y)
    {
      JoinedPairs(nodes0, nodes, lat, med, n, depth, done, seqId, x0, members, top, x, y);
    }
  }
}
