/** Building the topology from a normalised latency table, level by level. */
module Topology {
  import opened Arithmetic
  import opened FiniteSets
  import opened SortedSeqs
  import opened LatencyTable
  import opened TopologyTree

  // ------------------------------------------------------------- the latency levels

  /** The table's values in increasing order, each once. */
  ghost predicate Levels(med: seq<int>, lat: Table, n: nat) {
    && (forall i, j :: 0 <= i < j < |med| ==> med[i] < med[j])
    && (forall v :: v in med <==> Occurs(lat, n, v))
  }

  ghost predicate OccursBefore(lat: Table, n: nat, v: int, x: nat, y: nat) {
    exists i: nat, j: nat :: (i < x || (i == x && j < y)) && i < n && OccursFrom(lat, n, v, i, j)
  }

  /** Adds a value that is not there yet. */
  method AddUniq(s: seq<int>, v: int) returns (s': seq<int>)
    requires forall i, j :: 0 <= i < j < |s| ==> s[i] != s[j]
    ensures forall i, j :: 0 <= i < j < |s'| ==> s'[i] != s'[j]
    ensures forall u :: u in s' <==> u in s || u == v
  {
    s' := if v in s then s else s + [v];
  }

  method UniqueValues(lat: Table, n: nat) returns (s: seq<int>)
    requires Square(lat, n)
    ensures forall i, j :: 0 <= i < j < |s| ==> s[i] != s[j]
    ensures forall v :: v in s <==> Occurs(lat, n, v)
  {
    s := [];
    var x: nat := 0;
    while x < n
      invariant x <= n && forall i, j :: 0 <= i < j < |s| ==> s[i] != s[j]
      invariant forall v :: v in s <==> OccursBefore(lat, n, v, x, 0)
    {
      var y: nat := 0;
      while y < n
        invariant y <= n && forall i, j :: 0 <= i < j < |s| ==> s[i] != s[j]
        invariant forall v :: v in s <==> OccursBefore(lat, n, v, x, y)
      {
        ghost var before := s;
        s := AddUniq(s, lat[x][y]);
        forall v ensures v in s <==> OccursBefore(lat, n, v, x, y + 1) { NextCell(lat, n, v, x, y); }
        y := y + 1;
      }
      forall v ensures OccursBefore(lat, n, v, x, n) <==> OccursBefore(lat, n, v, x + 1, 0) { NextRow(lat, n, v, x); }
      x := x + 1;
    }
    forall v ensures OccursBefore(lat, n, v, n, 0) <==> Occurs(lat, n, v) { LastRow(lat, n, v); }
  }

  lemma NextCell(lat: Table, n: nat, v: int, x: nat, y: nat)
    requires Square(lat, n) && x < n && y < n
    ensures OccursBefore(lat, n, v, x, y + 1) <==> OccursBefore(lat, n, v, x, y) || v == lat[x][y]
  {
    if v == lat[x][y] { assert OccursFrom(lat, n, v, x, y); }
    if OccursBefore(lat, n, v, x, y) {
      var i: nat, j: nat :| (i < x || (i == x && j < y)) && i < n && OccursFrom(lat, n, v, i, j);
      assert (i < x || (i == x && j < y + 1)) && OccursFrom(lat, n, v, i, j);
    }
    if OccursBefore(lat, n, v, x, y + 1) {
      var i: nat, j: nat :| (i < x || (i == x && j < y + 1)) && i < n && OccursFrom(lat, n, v, i, j);
      assert (i < x || (i == x && j < y)) || (i == x && j == y);
    }
  }

  lemma NextRow(lat: Table, n: nat, v: int, x: nat)
    requires Square(lat, n) && x < n
    ensures OccursBefore(lat, n, v, x, n) <==> OccursBefore(lat, n, v, x + 1, 0)
  {
    if OccursBefore(lat, n, v, x, n) {
      var i: nat, j: nat :| (i < x || (i == x && j < n)) && i < n && OccursFrom(lat, n, v, i, j);
      assert i < x + 1 && OccursFrom(lat, n, v, i, j);
    }
    if OccursBefore(lat, n, v, x + 1, 0) {
      var i: nat, j: nat :| i < x + 1 && i < n && OccursFrom(lat, n, v, i, j);
      assert i < x || (i == x && j < n);
    }
  }

  lemma LastRow(lat: Table, n: nat, v: int)
    ensures OccursBefore(lat, n, v, n, 0) <==> Occurs(lat, n, v)
  {
    if OccursBefore(lat, n, v, n, 0) {
      var i: nat, j: nat :| i < n && OccursFrom(lat, n, v, i, j);
    }
    if Occurs(lat, n, v) {
      var i: nat, j: nat :| i < n && OccursFrom(lat, n, v, i, j);
      assert i < n || (i == n && j < 0);
    }
  }

  lemma SortedDistinct(s: seq<int>, r: seq<int>)
    requires (forall i, j :: 0 <= i < j < |s| ==> s[i] != s[j]) && Sorted(r) && multiset(r) == multiset(s)
    ensures forall i, j :: 0 <= i < j < |r| ==> r[i] < r[j]
    ensures forall v :: v in r <==> v in s
  {
    forall v ensures v in r <==> v in s { assert v in r <==> v in multiset(r); }
    forall i, j | 0 <= i < j < |r| ensures r[i] < r[j] {
      assert Ordered(r, i, j);
      if r[i] == r[j] {
        TwiceCounted(r, i, j);
        OnceCounted(s, r[i]);
      }
    }
  }

  lemma TwiceCounted(r: seq<int>, i: nat, j: nat)
    requires i < j < |r| && r[i] == r[j]
    ensures multiset(r)[r[i]] >= 2
  {
    assert r == r[..i] + [r[i]] + r[i + 1..j] + [r[j]] + r[j + 1..];
  }

  lemma {:induction false} OnceCounted(s: seq<int>, v: int)
    requires forall i, j :: 0 <= i < j < |s| ==> s[i] != s[j]
    ensures multiset(s)[v] <= 1
  {
    if s != [] {
      var k := |s| - 1;
      OnceCounted(s[..k], v);
      assert s == s[..k] + [s[k]];
      if s[k] == v { assert v !in s[..k]; }
    }
  }

  /** The levels inferred from a table: its distinct values, sorted. */
  method InferClustering(lat: Table, n: nat) returns (med: seq<int>)
    requires Square(lat, n)
    ensures Levels(med, lat, n)
  {
    var s := UniqueValues(lat, n);
    med := Sort(s);
    SortedDistinct(s, med);
  }

  // --------------------------------------------------------------- sizes of groups

  ghost function DoneSet(done: seq<bool>): (c: set<nat>)
    ensures forall y: nat :: y in c <==> y < |done| && done[y]
  {
    set y: nat | y < |done| && done[y]
  }

  lemma DoneBound(done: seq<bool>)
    ensures |DoneSet(done)| <= |done|
    ensures (forall y :: 0 <= y < |done| ==> done[y]) ==> |DoneSet(done)| == |done|
    ensures (exists y :: 0 <= y < |done| && !done[y]) ==> |DoneSet(done)| < |done|
  {
    var all := NumbersBelow(|done|);
    SubsetSize(DoneSet(done), all);
    if y: nat :| y < |done| && !done[y] {
      assert y in all && y !in DoneSet(done);
    } else {
      assert DoneSet(done) == all;
    }
  }

  lemma DoneGrows(lat: Table, t: int, n: nat, done: seq<bool>, x0: nat, members: seq<nat>)
    requires Square(lat, n) && FreshClass(lat, t, n, done, x0, members) && forall h :: h in members ==> h < n
    ensures |DoneSet(Mark(done, members))| == |DoneSet(done)| + |Class(lat, n, t, x0)|
  {
    var c := Class(lat, n, t, x0);
    forall y: nat | y < n ensures (y in members <==> y in c) && (y in members ==> !done[y]) {
      assert FreshMember(lat, t, done, x0, members, y);
    }
    assert DoneSet(Mark(done, members)) == DoneSet(done) + c;
    assert DoneSet(done) !! c;
  }

  /** All classes of a level have a socket's size, or all are smaller but not single. */
  ghost predicate SizesAt(lat: Table, n: nat, hps: nat, t: int, socket: bool)
    requires Square(lat, n)
  {
    forall x :: 0 <= x < n ==> SizeAt(lat, n, hps, t, socket, x)
  }

  ghost predicate SizeAt(lat: Table, n: nat, hps: nat, t: int, socket: bool, x: nat)
    requires Square(lat, n) && x < n
  {
    if socket then |Class(lat, n, t, x)| == hps else 1 < |Class(lat, n, t, x)| < hps
  }

  lemma ProperSubset(a: set<nat>, b: set<nat>, y: nat)
    requires a <= b && y in b && y !in a
    ensures |a| < |b|
  {
    assert a <= b - {y};
    SubsetSize(a, b - {y});
  }

  /** In a hierarchy the classes below the socket latency are groups, those at it sockets. */
  lemma HierarchySizes(lat: Table, n: nat, ns: nat, sock: int, t: int)
    requires Hierarchy(lat, n, ns, sock) && 0 < t <= sock && Occurs(lat, n, t)
    ensures SizesAt(lat, n, n / ns, t, t == sock)
  {
    var hps, socket := n / ns, t == sock;
    forall x | 0 <= x < n ensures SizeAt(lat, n, hps, t, socket, x) {
      assert SocketSized(lat, n, ns, sock, x) && Reaches(lat, n, t, x) && Reaches(lat, n, sock, x);
      if t < sock {
        var y: nat :| OccursFrom(lat, n, t, x, y);
        var z: nat :| OccursFrom(lat, n, sock, x, z);
        assert DistancePair(lat, n, x, x) && DistancePair(lat, n, x, y);
        ProperSubset({x}, Class(lat, n, t, x), y);
        ProperSubset(Class(lat, n, t, x), Class(lat, n, sock, x), z);
      }
    }
  }

  // --------------------------------------------------------------- one level's groups

  /** Sockets are the nodes of level `socketLevel`. */
  ghost predicate Kinds(nodes: seq<Node>, socketLevel: nat) {
    forall a :: 0 <= a < |nodes| ==> KindAt(nodes[a], socketLevel)
  }

  ghost predicate KindAt(node: Node, socketLevel: nat) {
    node.kind == if node.level == 0 then Context else if node.level == socketLevel then SocketGroup else Group
  }

  /** Socket s is the node that stands above its first context. */
  ghost predicate SocketsFound(nodes: seq<Node>, sockets: seq<nat>, firsts: seq<nat>, n: nat, level: nat,
                               done: seq<bool>) {
    |sockets| == |firsts| && forall s :: 0 <= s < |sockets| ==> SocketFound(nodes, sockets, firsts, n, level, done, s)
  }

  ghost predicate SocketFound(nodes: seq<Node>, sockets: seq<nat>, firsts: seq<nat>, n: nat, level: nat,
                              done: seq<bool>, s: nat)
    requires s < |sockets| == |firsts|
  {
    && firsts[s] < n && n <= |done| && done[firsts[s]] && sockets[s] == Anc(nodes, firsts[s], level)
    && sockets[s] < |nodes| && nodes[sockets[s]].seqId == s && nodes[sockets[s]].level == level
  }

  /** The state of the loop over contexts: all before x are processed. */
  ghost predicate Scanning(nodes: seq<Node>, lat: Table, med: seq<int>, n: nat, depth: nat, done: seq<bool>, seqId: nat,
                           x: nat, hps: nat, socketLevel: nat, sockets: seq<nat>, firsts: seq<nat>) {
    && LevelState(nodes, lat, med, n, depth, done, seqId) && Kinds(nodes, socketLevel)
    && x <= n && (forall y :: 0 <= y < x ==> done[y])
    && seqId <= |DoneSet(done)|
    && (if depth + 1 == socketLevel
        then |DoneSet(done)| == seqId * hps && |sockets| == seqId
            && SocketsFound(nodes, sockets, firsts, n, socketLevel, done)
        else sockets == [] && firsts == [])
  }

  lemma SocketsKept(nodes0: seq<Node>, nodes: seq<Node>, lat: Table, med: seq<int>, n: nat, depth: nat, done: seq<bool>,
                    seqId: nat, x0: nat, members: seq<nat>, top: Node, sockets: seq<nat>, firsts: seq<nat>)
    requires Joined(nodes0, nodes, lat, med, n, depth, done, seqId, x0, members, top)
    requires 0 <= med[depth] <= med[depth + 1] && Distances(lat, n) && ClassesAt(lat, n, med[depth + 1])
    requires SocketsFound(nodes0, sockets, firsts, n, depth + 1, done) && |sockets| == seqId && x0 in members
    ensures SocketsFound(nodes, sockets + [|nodes0|], firsts + [x0], n, depth + 1, Mark(done, members))
  {
    var sockets', firsts', done' := sockets + [|nodes0|], firsts + [x0], Mark(done, members);
    RelinkedLevels(nodes0, nodes, top, members, |members|, depth, n);
    var level := depth + 1;
    forall s | 0 <= s < |sockets'| ensures SocketFound(nodes, sockets', firsts', n, level, done', s) {
      if s < |sockets| {
        assert SocketFound(nodes0, sockets, firsts, n, depth + 1, done, s);
        assert FreshMember(lat, med[depth + 1], done, x0, members, firsts[s]);
        JoinedRoot(nodes0, nodes, lat, med, n, depth, done, seqId, x0, members, top, firsts[s]);
        assert Relinked(nodes0, nodes, members, |members|, depth, sockets[s]);
      } else {
        JoinedRoot(nodes0, nodes, lat, med, n, depth, done, seqId, x0, members, top, x0);
      }
    }
  }

  lemma KindsKept(nodes0: seq<Node>, nodes: seq<Node>, top: Node, members: seq<nat>, depth: nat, socketLevel: nat)
    requires Linking(nodes0, nodes, top, members, |members|, depth) && Kinds(nodes0, socketLevel)
             && KindAt(top, socketLevel)
    ensures Kinds(nodes, socketLevel)
  {
    forall a | 0 <= a < |nodes| ensures KindAt(nodes[a], socketLevel) {
      if a < |nodes0| {
        assert Relinked(nodes0, nodes, members, |members|, depth, a) && KindAt(nodes0[a], socketLevel);
      }
    }
  }

  /** What one unprocessed context adds to a level. */
  lemma ScanStep(nodes0: seq<Node>, nodes: seq<Node>, lat: Table, med: seq<int>, n: nat, depth: nat, done: seq<bool>,
                 seqId: nat, x0: nat, members: seq<nat>, top: Node, hps: nat, socketLevel: nat,
                 sockets: seq<nat>, firsts: seq<nat>)
    requires Scanning(nodes0, lat, med, n, depth, done, seqId, x0, hps, socketLevel, sockets, firsts)
    requires Joined(nodes0, nodes, lat, med, n, depth, done, seqId, x0, members, top) && KindAt(top, socketLevel)
    requires 0 <= med[depth] <= med[depth + 1] && Distances(lat, n) && ClassesAt(lat, n, med[depth + 1])
    requires SizesAt(lat, n, hps, med[depth + 1], depth + 1 == socketLevel) && hps > 1 && x0 in members
    ensures var socket := depth + 1 == socketLevel;
            Scanning(nodes, lat, med, n, depth, Mark(done, members), seqId + 1, x0 + 1, hps, socketLevel,
                     if socket then sockets + [|nodes0|] else sockets, if socket then firsts + [x0] else firsts)
  {
    ClassJoins(nodes0, nodes, lat, med, n, depth, done, seqId, x0, members, top);
    KindsKept(nodes0, nodes, top, members, depth, socketLevel);
    DoneGrows(lat, med[depth + 1], n, done, x0, members);
    assert SizeAt(lat, n, hps, med[depth + 1], depth + 1 == socketLevel, x0);
    if depth + 1 == socketLevel {
      SocketsKept(nodes0, nodes, lat, med, n, depth, done, seqId, x0, members, top, sockets, firsts);
      OneMore(seqId, hps);
    }
  }

  /** What the levels of a hierarchy satisfy at index lvl. */
  ghost predicate LevelOk(lat: Table, med: seq<int>, n: nat, ns: nat, lvl: nat, socketLevel: nat) {
    && 0 < lvl <= socketLevel < |med| && 0 <= med[lvl - 1] < med[lvl] && Distances(lat, n)
    && ns > 0 && ns * (n / ns) == n && n / ns > 1 && n < 10000
    && ClassesAt(lat, n, med[lvl]) && SizesAt(lat, n, n / ns, med[lvl], lvl == socketLevel)
  }

  /** The class of the first unprocessed context becomes a group or a socket. */
  method AddClass(nodes0: seq<Node>, lat: Table, n: nat, ns: nat, lvl: nat, t: int, seqId: nat, x0: nat, nFound: nat,
                  ghost med: seq<int>, ghost done: seq<bool>, ghost socketLevel: nat,
                  ghost sockets: seq<nat>, ghost firsts: seq<nat>)
    returns (nodes: seq<Node>, group: seq<nat>, socket: bool)
    requires LevelOk(lat, med, n, ns, lvl, socketLevel) && t == med[lvl] && x0 < n == |done| && !done[x0]
    requires Scanning(nodes0, lat, med, n, lvl - 1, done, seqId, x0, n / ns, socketLevel, sockets, firsts)
    requires lvl == socketLevel ==> nFound == seqId
    ensures socket == (lvl == socketLevel)
    ensures x0 in group && forall h :: h in group ==> h < n
    ensures Scanning(nodes, lat, med, n, lvl - 1, Mark(done, group), seqId + 1, x0 + 1, n / ns, socketLevel,
                     if socket then sockets + [|nodes0|] else sockets, if socket then firsts + [x0] else firsts)
  {
    group := CollectGroup(lat, n, t, x0);
    ghost var depth: nat := lvl - 1;
    FirstIsFresh(nodes0, lat, med, n, depth, done, seqId, x0);
    assert DistancePair(lat, n, x0, x0) && FreshMember(lat, t, done, x0, group, x0);
    ClassSize(lat, n, t, done, x0, ns, lvl == socketLevel);
    FreshLinkable(nodes0, lat, med, n, depth, done, seqId, x0, group);
    DoneBound(done);
    if |group| > 1 && |group| < n / ns {
      socket := false;
      var top := Node(Group, lvl, seqId, t, -1);
      nodes := LinkGroup(nodes0, top, group, n, depth);
      ScanStep(nodes0, nodes, lat, med, n, depth, done, seqId, x0, group, top, n / ns, socketLevel, sockets, firsts);
    } else {
      RoomForSocket(seqId, n / ns, ns, |DoneSet(done)|);
      if nFound < ns && |group| == n / ns {
        socket := true;
        var top := Node(SocketGroup, lvl, seqId, t, -1);
        nodes := LinkSocket(nodes0, top, group, n, depth);
        ScanStep(nodes0, nodes, lat, med, n, depth, done, seqId, x0, group, top, n / ns, socketLevel, sockets, firsts);
      }
    }
  }

  lemma RoomForSocket(seqId: nat, hps: nat, ns: nat, doneCount: nat)
    requires doneCount == seqId * hps && doneCount < ns * hps
    ensures seqId < ns
  {
    ProductLe(ns, seqId, hps);
  }

  lemma ClassSize(lat: Table, n: nat, t: int, done: seq<bool>, x0: nat, ns: nat, socket: bool)
    requires Distances(lat, n) && ns > 0 && SizesAt(lat, n, n / ns, t, socket) && n / ns > 1 && x0 < n == |done|
    requires FreshClass(lat, t, n, done, x0, ClassList(lat, t, x0, n)) && forall y :: 0 <= y < x0 ==> done[y]
    ensures if socket then |ClassList(lat, t, x0, n)| == n / ns else 1 < |ClassList(lat, t, x0, n)| < n / ns
  {
    var members := ClassList(lat, t, x0, n);
    forall y | 0 <= y < x0 ensures !Near(lat, t, x0, y) { assert FreshMember(lat, t, done, x0, members, y); }
    ClassListIsClass(lat, n, t, x0);
    assert SizeAt(lat, n, n / ns, t, socket, x0);
  }

  /** One latency level: every context that is not in a group yet starts one. */
  method GroupLevel(nodes0: seq<Node>, lat: Table, n: nat, ns: nat, lvl: nat, t: int,
                    ghost med: seq<int>, ghost socketLevel: nat)
    returns (nodes: seq<Node>, sockets: seq<nat>, firsts: seq<nat>, ghost seqId: nat, ghost done: seq<bool>)
    requires LevelOk(lat, med, n, ns, lvl, socketLevel) && t == med[lvl] && Kinds(nodes0, socketLevel)
    requires forall done0: seq<bool> :: |done0| == n && (forall x :: 0 <= x < n ==> !done0[x]) ==>
               LevelState(nodes0, lat, med, n, lvl - 1, done0, 0)
    ensures Scanning(nodes, lat, med, n, lvl - 1, done, seqId, n, n / ns, socketLevel, sockets, firsts)
  {
    var processed := seq(n, i => false);
    var count := 0;
    nodes, sockets, firsts := nodes0, [], [];
    assert DoneSet(processed) == {};
    var x: nat := 0;
    while x < n
      invariant Scanning(nodes, lat, med, n, lvl - 1, processed, count, x, n / ns, socketLevel, sockets, firsts)
    {
      if !processed[x] {
        ghost var before := nodes;
        var index := |nodes|;
        var group, socket;
        nodes, group, socket := AddClass(nodes, lat, n, ns, lvl, t, count, x, |sockets|, med, processed, socketLevel,
                                         sockets, firsts);
        processed := Mark(processed, group);
        if socket { sockets, firsts := sockets + [index], firsts + [x]; }
        count := count + 1;
      }
      x := x + 1;
    }
    seqId, done := count, processed;
  }

  // ------------------------------------------------------------------- all levels

  lemma LevelsStart(med: seq<int>, lat: Table, n: nat, ns: nat, sock: int) returns (socketLevel: nat)
    requires Hierarchy(lat, n, ns, sock) && Levels(med, lat, n)
    ensures 0 < socketLevel < |med| && med[0] == 0 && med[socketLevel] == sock && n > 0
  {
    NotZero(ns, n / ns);
    assert DistancePair(lat, n, 0, 0);
    assert OccursFrom(lat, n, 0, 0, 0) && Occurs(lat, n, 0) && 0 in med && sock in med;
    var z :| 0 <= z < |med| && med[z] == 0;
    var v := med[0];
    assert v in med && Occurs(lat, n, v);
    var i: nat, j: nat :| i < n && OccursFrom(lat, n, v, i, j);
    assert DistancePair(lat, n, i, j);
    var s :| 0 <= s < |med| && med[s] == sock;
    socketLevel := s;
  }

  lemma NotZero(a: nat, b: nat)
    requires a > 0 && b > 0
    ensures a * b > 0
  {}

  lemma LevelIsOk(med: seq<int>, lat: Table, n: nat, ns: nat, sock: int, lvl: nat, socketLevel: nat)
    requires Hierarchy(lat, n, ns, sock) && Levels(med, lat, n) && med != [] && med[0] == 0
    requires 0 < lvl <= socketLevel < |med| && med[socketLevel] == sock
    ensures LevelOk(lat, med, n, ns, lvl, socketLevel)
  {
    assert med[0] <= med[lvl - 1] < med[lvl] <= med[socketLevel];
    assert med[lvl] in med && Occurs(lat, n, med[lvl]);
    HierarchySizes(lat, n, ns, sock, med[lvl]);
    assert lvl < socketLevel ==> med[lvl] < med[socketLevel];
    assert ClassesAt(lat, n, med[lvl]);
  }

  /** All levels up to `depth` are complete, and nothing is above them. */
  ghost predicate Complete(nodes: seq<Node>, lat: Table, med: seq<int>, n: nat, depth: nat, socketLevel: nat) {
    && Labelled(nodes, med, n) && Kinds(nodes, socketLevel) && depth < |med|
    && AllClimb(nodes, n, depth) && AllShare(nodes, lat, med, n, depth)
    && (forall a :: 0 <= a < |nodes| ==> nodes[a].level <= depth)
    && (forall x :: 0 <= x < n ==> FreeRoot(nodes, x, depth))
  }

  function Contexts(n: nat): (nodes: seq<Node>)
    ensures |nodes| == n && forall i :: 0 <= i < n ==> nodes[i] == Node(Context, 0, i, 0, -1)
  {
    seq(n, i requires 0 <= i < n => Node(Context, 0, i, 0, -1))
  }

  lemma ContextsComplete(lat: Table, med: seq<int>, n: nat, socketLevel: nat)
    requires Distances(lat, n) && 0 < socketLevel < |med| && med[0] == 0 && n < 10000
    ensures Complete(Contexts(n), lat, med, n, 0, socketLevel)
  {
    var nodes := Contexts(n);
    forall x, y | 0 <= x < n && 0 <= y < n ensures SharesAt(nodes, lat, med, 0, x, y)
    { assert DistancePair(lat, n, x, y); }
  }

  lemma CompleteStarts(nodes: seq<Node>, lat: Table, med: seq<int>, n: nat, depth: nat, socketLevel: nat)
    requires Complete(nodes, lat, med, n, depth, socketLevel) && depth + 1 < |med|
    ensures forall done0: seq<bool> :: |done0| == n && (forall x :: 0 <= x < n ==> !done0[x]) ==>
              LevelState(nodes, lat, med, n, depth, done0, 0)
  {
    forall done0: seq<bool> | |done0| == n && (forall x :: 0 <= x < n ==> !done0[x])
      ensures LevelState(nodes, lat, med, n, depth, done0, 0)
    {
      LevelStarts(nodes, lat, med, n, depth, done0);
    }
  }

  lemma ScanFinished(nodes: seq<Node>, lat: Table, med: seq<int>, n: nat, ns: nat, lvl: nat, done: seq<bool>,
                     seqId: nat,
                     socketLevel: nat, sockets: seq<nat>, firsts: seq<nat>)
    requires LevelOk(lat, med, n, ns, lvl, socketLevel)
    requires Scanning(nodes, lat, med, n, lvl - 1, done, seqId, n, n / ns, socketLevel, sockets, firsts)
    ensures Complete(nodes, lat, med, n, lvl, socketLevel)
    ensures lvl == socketLevel ==> |sockets| == ns && SocketsFound(nodes, sockets, firsts, n, socketLevel, done)
    ensures lvl == socketLevel ==> Numbered(nodes, socketLevel, ns)
  {
    LevelComplete(nodes, lat, med, n, lvl - 1, lvl, done, seqId);
    forall a | 0 <= a < |nodes| ensures nodes[a].level <= lvl && (nodes[a].level == lvl ==> nodes[a].seqId < seqId) {
      assert UpTo(nodes[a], lvl - 1, seqId);
    }
    DoneBound(done);
    if lvl == socketLevel { SameQuotient(seqId, ns, n / ns); }
  }

  /** The sockets' numbers are below ns. */
  ghost predicate Numbered(nodes: seq<Node>, socketLevel: nat, ns: nat) {
    forall a :: 0 <= a < |nodes| && nodes[a].level == socketLevel ==> nodes[a].seqId < ns
  }

  lemma SameQuotient(a: nat, b: nat, h: nat)
    requires a * h == b * h && h > 0
    ensures a == b
  {
    ProductLe(a + 1, b, h);
    ProductLe(b + 1, a, h);
    assert (a + 1) * h == a * h + h && (b + 1) * h == b * h + h;
  }

  /** At latency 0 every context is alone, so level 0 adds no group. */
  lemma {:induction false} AloneAtZero(lat: Table, n: nat, x: nat, k: nat)
    requires Distances(lat, n) && x < k <= n
    ensures ClassList(lat, 0, x, k) == [x]
    decreases k - x
  {
    assert DistancePair(lat, n, x, x) && DistancePair(lat, n, x, k - 1);
    if k == x + 1 {
      assert ClassList(lat, 0, x, x) == [];
    } else {
      AloneAtZero(lat, n, x, k - 1);
    }
  }

  /** The loop over levels: groups until all sockets are found. */
  method BuildLevels(lat: Table, n: nat, ns: nat, med: seq<int>, ghost sock: int, ghost socketLevel: nat)
    returns (nodes: seq<Node>, sockets: seq<nat>, firsts: seq<nat>, lvl: nat, ghost done: seq<bool>)
    requires Hierarchy(lat, n, ns, sock) && Levels(med, lat, n)
    requires 0 < socketLevel < |med| && med[0] == 0 && med[socketLevel] == sock
    ensures lvl == socketLevel + 1 && |sockets| == ns && Complete(nodes, lat, med, n, socketLevel, socketLevel)
    ensures SocketsFound(nodes, sockets, firsts, n, socketLevel, done) && Numbered(nodes, socketLevel, ns)
  {
    nodes, sockets, firsts, lvl, done := Contexts(n), [], [], 0, [];
    ContextsComplete(lat, med, n, socketLevel);
    while lvl < |med| && |sockets| != ns
      invariant lvl <= socketLevel + 1
      invariant Complete(nodes, lat, med, n, if lvl == 0 then 0 else lvl - 1, socketLevel)
      invariant lvl <= socketLevel ==> |sockets| == 0
      invariant lvl == socketLevel + 1 ==> |sockets| == ns && SocketsFound(nodes, sockets, firsts, n, socketLevel, done)
      invariant lvl == socketLevel + 1 ==> Numbered(nodes, socketLevel, ns)
    {
      if lvl == 0 {
        forall x | 0 <= x < n ensures ClassList(lat, 0, x, n) == [x] { AloneAtZero(lat, n, x, n); }
      } else {
        LevelIsOk(med, lat, n, ns, sock, lvl, socketLevel);
        CompleteStarts(nodes, lat, med, n, lvl - 1, socketLevel);
        ghost var seqId;
        nodes, sockets, firsts, seqId, done := GroupLevel(nodes, lat, n, ns, lvl, med[lvl], med, socketLevel);
        ScanFinished(nodes, lat, med, n, ns, lvl, done, seqId, socketLevel, sockets, firsts);
      }
      lvl := lvl + 1;
    }
  }
}
