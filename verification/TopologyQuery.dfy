/** The finished topology: cross-socket links, and the latency query that must give back
    the table the topology was built from. */
module TopologyQuery {
  import opened Arithmetic
  import opened LatencyTable
  import opened TopologyTree
  import opened Topology

  /** A link between sockets left < right. */
  datatype Sibling = Sibling(left: nat, right: nat, level: nat, latency: int)

  /** Latency between the first contexts of two sockets. */
  function SocketLatency(lat: Table, firsts: seq<nat>, x: nat, y: nat): int
    requires x < |firsts| && y < |firsts| && firsts[x] < |lat| && firsts[y] < |lat[firsts[x]]|
  {
    lat[firsts[x]][firsts[y]]
  }

  ghost predicate FirstsOk(lat: Table, n: nat, firsts: seq<nat>) {
    Square(lat, n) && forall s :: 0 <= s < |firsts| ==> firsts[s] < n
  }

  /** Level lvl's pairs are scanned up to, not including, (x, y). */
  ghost predicate Scanned(med: seq<int>, lvl: nat, x: nat, y: nat, level: nat, s: nat, t: nat) {
    level < lvl || (level == lvl && (s < x || (s == x && t < y)))
  }

  ghost predicate LinkOk(lat: Table, n: nat, firsts: seq<nat>, med: seq<int>, link: Sibling)
    requires FirstsOk(lat, n, firsts)
  {
    && link.left < link.right < |firsts| && link.level < |med| && link.latency == med[link.level]
    && SocketLatency(lat, firsts, link.left, link.right) == link.latency
  }

  ghost predicate SamePair(p: Sibling, q: Sibling) { p.left == q.left && p.right == q.right }

  ghost predicate Linked(links: seq<Sibling>, s: nat, t: nat) {
    exists i :: 0 <= i < |links| && links[i].left == s && links[i].right == t
  }

  /** The links made when levels from `from` to lvl have been scanned up to (x, y): exactly
      the scanned pairs whose latency is the level's, each once. */
  ghost predicate Linking(links: seq<Sibling>, lat: Table, n: nat, firsts: seq<nat>, med: seq<int>,
                          from: nat, lvl: nat, x: nat, y: nat)
    requires FirstsOk(lat, n, firsts)
  {
    && (forall i :: 0 <= i < |links| ==> LinkOk(lat, n, firsts, med, links[i])
                                         && Scanned(med, lvl, x, y, links[i].level, links[i].left, links[i].right))
    && (forall i, j :: 0 <= i < j < |links| ==> !SamePair(links[i], links[j]))
    && (forall k, s, t :: from <= k < |med| && 0 <= s < t < |firsts| && Scanned(med, lvl, x, y, k, s, t)
          ==> LinkedAt(links, lat, n, firsts, med, k, s, t))
  }

  ghost predicate LinkedAt(links: seq<Sibling>, lat: Table, n: nat, firsts: seq<nat>, med: seq<int>, k: nat, s: nat,
                           t: nat)
    requires FirstsOk(lat, n, firsts) && k < |med| && s < |firsts| && t < |firsts|
  {
    SocketLatency(lat, firsts, s, t) == med[k] ==> Linked(links, s, t)
  }

  ghost predicate Increasing(med: seq<int>) { forall i, j :: 0 <= i < j < |med| ==> med[i] < med[j] }

  lemma LinkOld(links: seq<Sibling>, lat: Table, n: nat, firsts: seq<nat>, med: seq<int>, from: nat, lvl: nat,
                x: nat, y: nat)
    requires FirstsOk(lat, n, firsts) && Linking(links, lat, n, firsts, med, from, lvl, x, y) && Increasing(med)
    requires from <= lvl < |med| && x < y < |firsts| && SocketLatency(lat, firsts, x, y) != med[lvl]
    ensures Linking(links, lat, n, firsts, med, from, lvl, x, y + 1)
  {
    forall k, s, t | from <= k < |med| && 0 <= s < t < |firsts| && Scanned(med, lvl, x, y + 1, k, s, t)
      ensures LinkedAt(links, lat, n, firsts, med, k, s, t)
    {
      assert Scanned(med, lvl, x, y, k, s, t) || (k == lvl && s == x && t == y);
    }
  }

  lemma LinkNew(links: seq<Sibling>, lat: Table, n: nat, firsts: seq<nat>, med: seq<int>, from: nat, lvl: nat,
                x: nat, y: nat,
                links': seq<Sibling>)
    requires FirstsOk(lat, n, firsts) && Linking(links, lat, n, firsts, med, from, lvl, x, y) && Increasing(med)
    requires from <= lvl < |med| && x < y < |firsts| && SocketLatency(lat, firsts, x, y) == med[lvl]
    requires links' == links + [Sibling(x, y, lvl, med[lvl])]
    ensures Linking(links', lat, n, firsts, med, from, lvl, x, y + 1)
  {
    var y' := y + 1;
    forall i | 0 <= i < |links'|
      ensures LinkOk(lat, n, firsts, med, links'[i])
              && Scanned(med, lvl, x, y', links'[i].level, links'[i].left, links'[i].right)
    {
      assert i < |links| ==> LinkOk(lat, n, firsts, med, links[i]);
    }
    forall i, j | 0 <= i < j < |links'| ensures !SamePair(links'[i], links'[j]) {
      assert LinkOk(lat, n, firsts, med, links[i]);
      LevelOnce(lat, n, firsts, med, lvl, x, y, links[i]);
    }
    forall k, s, t | from <= k < |med| && 0 <= s < t < |firsts| && Scanned(med, lvl, x, y', k, s, t)
      ensures LinkedAt(links', lat, n, firsts, med, k, s, t)
    {
      LinkedNow(links, lat, n, firsts, med, from, lvl, x, y, links', k, s, t);
    }
  }

  /** A pair has one latency, so it is linked at no other level, and at this one not before its turn. */
  lemma LevelOnce(lat: Table, n: nat, firsts: seq<nat>, med: seq<int>, lvl: nat, x: nat, y: nat, link: Sibling)
    requires FirstsOk(lat, n, firsts) && Increasing(med) && lvl < |med| && x < y < |firsts|
    requires SocketLatency(lat, firsts, x, y) == med[lvl] && LinkOk(lat, n, firsts, med, link)
    ensures link.left == x && link.right == y ==> link.level == lvl
  {
    LevelOrder(med, link.level, lvl);
    LevelOrder(med, lvl, link.level);
  }

  lemma LinkedNow(links: seq<Sibling>, lat: Table, n: nat, firsts: seq<nat>, med: seq<int>, from: nat, lvl: nat,
                  x: nat, y: nat,
                  links': seq<Sibling>, k: nat, s: nat, t: nat)
    requires FirstsOk(lat, n, firsts) && Linking(links, lat, n, firsts, med, from, lvl, x, y)
    requires from <= k < |med| && s < t < |firsts| && Scanned(med, lvl, x, y + 1, k, s, t)
    requires lvl < |med| && links' == links + [Sibling(x, y, lvl, med[lvl])]
    ensures LinkedAt(links', lat, n, firsts, med, k, s, t)
  {
    if Scanned(med, lvl, x, y, k, s, t) {
      assert LinkedAt(links, lat, n, firsts, med, k, s, t);
      if Linked(links, s, t) { LinkedMore(links, links', s, t); }
    } else {
      assert links'[|links|] == Sibling(s, t, lvl, med[lvl]);
    }
  }

  lemma LinkStep(links: seq<Sibling>, lat: Table, n: nat, firsts: seq<nat>, med: seq<int>, from: nat, lvl: nat,
                 x: nat, y: nat)
    requires FirstsOk(lat, n, firsts) && Linking(links, lat, n, firsts, med, from, lvl, x, y) && Increasing(med)
    requires from <= lvl < |med| && x < y < |firsts|
    ensures var links' := if SocketLatency(lat, firsts, x, y) == med[lvl] then links + [Sibling(x, y, lvl,
        med[lvl])] else links;
            Linking(links', lat, n, firsts, med, from, lvl, x, y + 1)
  {
    if SocketLatency(lat, firsts, x, y) == med[lvl] {
      LinkNew(links, lat, n, firsts, med, from, lvl, x, y, links + [Sibling(x, y, lvl, med[lvl])]);
    } else {
      LinkOld(links, lat, n, firsts, med, from, lvl, x, y);
    }
  }

  lemma LinkedMore(links: seq<Sibling>, links': seq<Sibling>, s: nat, t: nat)
    requires Linked(links, s, t) && links <= links'
    ensures Linked(links', s, t)
  {
    var i :| 0 <= i < |links| && links[i].left == s && links[i].right == t;
    assert links'[i] == links[i];
  }

  lemma NextX(links: seq<Sibling>, lat: Table, n: nat, firsts: seq<nat>, med: seq<int>, from: nat, lvl: nat, x: nat)
    requires FirstsOk(lat, n, firsts) && Linking(links, lat, n, firsts, med, from, lvl, x, |firsts|)
    ensures Linking(links, lat, n, firsts, med, from, lvl, x + 1, x + 2)
  {}

  lemma NextLevel(links: seq<Sibling>, lat: Table, n: nat, firsts: seq<nat>, med: seq<int>, from: nat, lvl: nat)
    requires FirstsOk(lat, n, firsts) && Linking(links, lat, n, firsts, med, from, lvl, |firsts|, |firsts| + 1)
    ensures Linking(links, lat, n, firsts, med, from, lvl + 1, 0, 1)
  {
    forall i | 0 <= i < |links|
      ensures Scanned(med, lvl + 1, 0, 1, links[i].level, links[i].left, links[i].right)
    {
      assert Scanned(med, lvl, |firsts|, |firsts| + 1, links[i].level, links[i].left, links[i].right);
    }
    forall k, s, t | from <= k < |med| && 0 <= s < t < |firsts| && Scanned(med, lvl + 1, 0, 1, k, s, t)
      ensures LinkedAt(links, lat, n, firsts, med, k, s, t)
    {
      assert Scanned(med, lvl, |firsts|, |firsts| + 1, k, s, t);
    }
  }

  /** The cross-socket levels: one link for every pair of sockets at the level of their latency. */
  method CreateSiblings(lat: Table, n: nat, firsts: seq<nat>, med: seq<int>, from: nat) returns (links: seq<Sibling>)
    requires FirstsOk(lat, n, firsts) && Increasing(med) && from <= |med|
    ensures Linking(links, lat, n, firsts, med, from, |med|, 0, 1)
  {
    links := [];
    var lvl := from;
    while lvl < |med|
      invariant from <= lvl <= |med| && Linking(links, lat, n, firsts, med, from, lvl, 0, 1)
    {
      var x: nat := 0;
      while x < |firsts|
        invariant x <= |firsts| && Linking(links, lat, n, firsts, med, from, lvl, x, x + 1)
      {
        var y := x + 1;
        while y < |firsts|
          invariant x < y <= |firsts| && Linking(links, lat, n, firsts, med, from, lvl, x, y)
        {
          LinkStep(links, lat, n, firsts, med, from, lvl, x, y);
          if SocketLatency(lat, firsts, x, y) == med[lvl] {
            links := links + [Sibling(x, y, lvl, med[lvl])];
          }
          y := y + 1;
        }
        NextX(links, lat, n, firsts, med, from, lvl, x);
        x := x + 1;
      }
      NextLevel(links, lat, n, firsts, med, from, lvl);
      lvl := lvl + 1;
    }
  }

  // ---------------------------------------------------------------- the round trip

  /** The topology was built from this table. */
  ghost predicate BuiltFrom(nodes: seq<Node>, sockets: seq<nat>, firsts: seq<nat>, links: seq<Sibling>,
                            lat: Table, n: nat, ns: nat, med: seq<int>, socketLevel: nat, done: seq<bool>) {
    && Levels(med, lat, n) && 0 < socketLevel < |med| && Hierarchy(lat, n, ns, med[socketLevel])
    && Complete(nodes, lat, med, n, socketLevel, socketLevel)
    && |sockets| == ns && SocketsFound(nodes, sockets, firsts, n, socketLevel, done) && Numbered(nodes, socketLevel, ns)
    && FirstsOk(lat, n, firsts) && Linking(links, lat, n, firsts, med, socketLevel + 1, |med|, 0, 1)
  }

  lemma ValueIsLevel(lat: Table, n: nat, med: seq<int>, x: nat, y: nat) returns (i: nat)
    requires Square(lat, n) && Levels(med, lat, n) && x < n && y < n
    ensures i < |med| && med[i] == lat[x][y]
  {
    assert OccursFrom(lat, n, lat[x][y], x, y);
    assert Occurs(lat, n, lat[x][y]) && lat[x][y] in med;
    i :| 0 <= i < |med| && med[i] == lat[x][y];
  }

  lemma LevelOrder(med: seq<int>, i: nat, j: nat)
    requires Increasing(med) && i < |med| && j < |med|
    ensures i < j ==> med[i] < med[j]
  {}

  /** The latency of contexts that first share an ancestor at level k + 1 is that level's. */
  lemma FirstShared(lat: Table, n: nat, med: seq<int>, k: nat, x: nat, y: nat)
    requires Square(lat, n) && Levels(med, lat, n) && k + 1 < |med| && x < n && y < n
    requires !Near(lat, med[k], x, y) && Near(lat, med[k + 1], x, y)
    ensures lat[x][y] == med[k + 1]
  {
    var i := ValueIsLevel(lat, n, med, x, y);
    LevelOrder(med, i, k);
    LevelOrder(med, k + 1, i);
  }

  /** The socket above a context is one of the ns, and near its first context. */
  lemma SocketOf(nodes: seq<Node>, sockets: seq<nat>, firsts: seq<nat>, links: seq<Sibling>, lat: Table, n: nat,
                 ns: nat,
                 med: seq<int>, socketLevel: nat, done: seq<bool>, x: nat) returns (s: nat)
    requires BuiltFrom(nodes, sockets, firsts, links, lat, n, ns, med, socketLevel, done) && x < n
    ensures s < ns && s < |firsts| && sockets[s] == Anc(nodes, x, socketLevel)
            && Near(lat, med[socketLevel], x, firsts[s])
  {
    var a := Anc(nodes, x, socketLevel);
    assert Climbs(nodes, x, socketLevel) && At(nodes, a, socketLevel);
    s := nodes[a].seqId;
    assert SocketFound(nodes, sockets, firsts, n, socketLevel, done, s);
    var b := sockets[s];
    assert a < b ==> Unlike(nodes[a], nodes[b]);
    assert b < a ==> Unlike(nodes[b], nodes[a]);
    assert SharesAt(nodes, lat, med, socketLevel, x, firsts[s]);
  }

  /** Contexts of different sockets are as far apart as the sockets' first contexts. */
  lemma AcrossSockets(lat: Table, n: nat, t: int, x: nat, y: nat, fx: nat, fy: nat)
    requires Distances(lat, n) && ClassesAt(lat, n, t) && x < n && y < n && fx < n && fy < n
    requires Near(lat, t, x, fx) && Near(lat, t, y, fy) && !Near(lat, t, x, y)
    ensures lat[fx][fy] == lat[x][y] && lat[fy][fx] == lat[x][y] && !Near(lat, t, fx, fy)
  {
    assert SameView(lat, n, t, x, fx, y);
    assert DistancePair(lat, n, fx, y) && DistancePair(lat, n, fx, fy);
    NearTrans(lat, n, t, x, fx, y);
    NearSym(lat, n, t, fx, y);
    assert SameView(lat, n, t, y, fy, fx);
    NearTrans(lat, n, t, y, fy, fx);
    NearSym(lat, n, t, fx, fy);
  }

  /** Two different sockets have a link, and every link has its sockets' latency. */
  lemma SocketsLinked(links: seq<Sibling>, lat: Table, n: nat, firsts: seq<nat>, med: seq<int>, socketLevel: nat,
                      s: nat, t: nat)
    requires FirstsOk(lat, n, firsts) && Levels(med, lat, n) && socketLevel < |med|
    requires Linking(links, lat, n, firsts, med, socketLevel + 1, |med|, 0, 1)
    requires s < t < |firsts| && !Near(lat, med[socketLevel], firsts[s], firsts[t])
    ensures Linked(links, s, t)
  {
    var k := ValueIsLevel(lat, n, med, firsts[s], firsts[t]);
    LevelOrder(med, k, socketLevel);
    assert Scanned(med, |med|, 0, 1, k, s, t);
    assert LinkedAt(links, lat, n, firsts, med, k, s, t);
  }

  class Mctop {
    var nHwcs: nat
    var nodes: seq<Node>
    var sockets: seq<nat>
    var siblings: seq<Sibling>
    var socketLevel: nat
    var latencies: seq<int>

    /** The contexts' groups are the table's classes and the sockets' links carry its latencies. */
    ghost predicate Built(lat: Table, ns: nat)
      reads this
    {
      exists firsts: seq<nat>, done: seq<bool> ::
        BuiltFrom(nodes, sockets, firsts, siblings, lat, nHwcs, ns, latencies, socketLevel, done)
    }

    /** The topology of n contexts in ns sockets. */
    constructor (lat: Table, n: nat, ns: nat, ghost sock: int)
      requires Hierarchy(lat, n, ns, sock)
      ensures Built(lat, ns) && nHwcs == n
    {
      var med := InferClustering(lat, n);
      ghost var level := LevelsStart(med, lat, n, ns, sock);
      var tree, socks, firsts, lvl;
      ghost var done;
      tree, socks, firsts, lvl, done := BuildLevels(lat, n, ns, med, sock, level);
      assert FirstsOk(lat, n, firsts) by {
        forall s | 0 <= s < |firsts| ensures firsts[s] < n
        { assert SocketFound(tree, socks, firsts, n, level, done, s); }
      }
      var links := CreateSiblings(lat, n, firsts, med, lvl);
      nHwcs, nodes, sockets, siblings, socketLevel, latencies := n, tree, socks, links, lvl - 1, med;
      new;
      assert BuiltFrom(nodes, sockets, firsts, siblings, lat, nHwcs, ns, latencies, socketLevel, done);
    }

    /** The link between two sockets, given as nodes; its index or the number of links. */
    method GetSiblingWithSockets(s0: nat, s1: nat) returns (i: nat)
      requires forall k :: 0 <= k < |siblings| ==> siblings[k].left < |sockets| && siblings[k].right < |sockets|
      ensures i <= |siblings|
      ensures i < |siblings| ==> Joins(siblings[i], s0, s1)
      ensures i == |siblings| ==> forall k :: 0 <= k < |siblings| ==> !Joins(siblings[k], s0, s1)
    {
      i := 0;
      while i < |siblings| && !Joins(siblings[i], s0, s1)
        invariant i <= |siblings| && forall k :: 0 <= k < i ==> !Joins(siblings[k], s0, s1)
      {
        i := i + 1;
      }
    }

    predicate Joins(link: Sibling, s0: nat, s1: nat)
      requires link.left < |sockets| && link.right < |sockets|
      reads this
    {
      JoinsNodes(sockets, link, s0, s1)
    }

    /** The latency query of two nodes, given with a context x under g0 at level i, and y under g1 at
        level j: climb to the same level, then in lockstep until the ancestors are the same, or
        else take the link between the sockets. Contexts get the table's latency, other
        nodes at least that of the higher one's level. */
    method GetLatency(g0: nat, g1: nat, ghost x: nat, ghost i: nat, ghost y: nat, ghost j: nat,
                      ghost lat: Table, ghost ns: nat)
      returns (l: int)
      requires Built(lat, ns) && x < nHwcs && y < nHwcs && i <= socketLevel && j <= socketLevel
      requires g0 == Anc(nodes, x, i) && g1 == Anc(nodes, y, j)
      ensures x < |lat| && y < |lat[x]| && i < |latencies| && j < |latencies|
      ensures l == Max(latencies[Max(i, j)], lat[x][y])
      ensures i == j == 0 ==> l == lat[x][y]
    {
      ghost var firsts: seq<nat>, done: seq<bool> :|
        BuiltFrom(nodes, sockets, firsts, siblings, lat, nHwcs, ns, latencies, socketLevel, done);
      LowestIsZero(nodes, lat, latencies, nHwcs, ns, socketLevel, x, y);
      ghost var k := Max(i, j);
      var h0 := ClimbTo(g0, g1, x, i, y, j);
      var h1 := ClimbTo(g1, h0, y, j, x, k);
      SameLevel(nodes, lat, latencies, nHwcs, socketLevel, k, x, y);
      if nodes[h0].Id() == nodes[h1].Id() {
        return if nodes[h0].level == 0 then 0 else nodes[h0].latency;
      }
      l := ClimbOrLink(h0, h1, x, y, k, lat, ns, firsts, done);
    }

    /** A node below the other's level goes up to it. */
    method ClimbTo(g: nat, other: nat, ghost x: nat, ghost i: nat, ghost y: nat, ghost j: nat) returns (h: nat)
      requires Climbs(nodes, x, socketLevel) && Climbs(nodes, y, socketLevel)
      requires i <= socketLevel && j <= socketLevel && g == Anc(nodes, x, i) && other == Anc(nodes, y, j)
      ensures h < |nodes| && h == Anc(nodes, x, Max(i, j))
    {
      h := g;
      ghost var k := i;
      assert At(nodes, Anc(nodes, x, i), i) && At(nodes, Anc(nodes, y, j), j);
      while nodes[h].level < nodes[other].level
        invariant i <= k <= Max(i, j) && h < |nodes| && h == Anc(nodes, x, k) && nodes[h].level == k
        decreases j - k
      {
        assert At(nodes, Anc(nodes, x, k + 1), k + 1);
        h := nodes[h].parent;
        k := k + 1;
      }
    }

    /** Different nodes of one level: up in lockstep, or across. */
    method ClimbOrLink(h0: nat, h1: nat, ghost x: nat, ghost y: nat, ghost from: nat, ghost lat: Table, ghost ns: nat,
                       ghost firsts: seq<nat>, ghost done: seq<bool>)
      returns (l: int)
      requires BuiltFrom(nodes, sockets, firsts, siblings, lat, nHwcs, ns, latencies, socketLevel, done)
      requires x < nHwcs && y < nHwcs && from <= socketLevel && h0 < |nodes| && h1 < |nodes|
      requires Apart(nodes, lat, latencies, from, x, y, h0, h1)
      ensures l == lat[x][y]
    {
      var g0: nat, g1: nat := h0, h1;
      ghost var k: nat := from;
      KindsAtLevel(nodes, latencies, nHwcs, lat, socketLevel, k, x, y, g0, g1);
      while nodes[g0].kind != SocketGroup && nodes[g1].kind != SocketGroup
        invariant k <= socketLevel && g0 < |nodes| && g1 < |nodes|
        invariant Apart(nodes, lat, latencies, k, x, y, g0, g1)
        invariant nodes[g0].kind == SocketGroup <==> k == socketLevel
        invariant nodes[g1].kind == SocketGroup <==> k == socketLevel
        decreases socketLevel - k
      {
        ClimbOne(nodes, lat, latencies, nHwcs, socketLevel, k, x, y, g0, g1);
        g0, g1 := nodes[g0].parent, nodes[g1].parent;
        if nodes[g0].Id() == nodes[g1].Id() {
          FirstShared(lat, nHwcs, latencies, k, x, y);
          return nodes[g0].latency;
        }
        k := k + 1;
      }
      LinksInRange(siblings, lat, nHwcs, firsts, latencies, socketLevel + 1, |sockets|);
      var link := GetSiblingWithSockets(g0, g1);
      SocketAnswer(nodes, sockets, firsts, siblings, lat, nHwcs, ns, latencies, socketLevel, done, x, y, link);
      l := siblings[link].latency;
    }

    /** Context x is one of socket s. */
    ghost predicate InSocket(x: nat, s: nat)
      reads this
    {
      InSocketOf(nodes, sockets, nHwcs, socketLevel, x, s)
    }

    /** The latency between sockets s and t: that of any contexts of the two. A socket's own is its level's,
        and no other socket is closer. */
    method GetSocketLatency(s: nat, t: nat, ghost lat: Table, ghost ns: nat) returns (l: int)
      requires Built(lat, ns) && s < ns && t < ns
      ensures 0 < socketLevel < |latencies| && latencies[socketLevel] <= l
      ensures s == t ==> l == latencies[socketLevel]
      ensures |sockets| == ns && forall x: nat, y: nat :: InSocket(x, s) && InSocket(y, t) && s != t ==>
                x < |lat| && y < |lat[x]| && l == lat[x][y]
    {
      ghost var firsts: seq<nat>, done: seq<bool> :|
        BuiltFrom(nodes, sockets, firsts, siblings, lat, nHwcs, ns, latencies, socketLevel, done);
      assert SocketFound(nodes, sockets, firsts, nHwcs, socketLevel, done, s);
      assert SocketFound(nodes, sockets, firsts, nHwcs, socketLevel, done, t);
      OwnDistance(lat, nHwcs, ns, latencies, socketLevel, firsts[s]);
      l := GetLatency(sockets[s], sockets[t], firsts[s], socketLevel, firsts[t], socketLevel, lat, ns);
      if s != t {
        SocketDistances(nodes, sockets, firsts, siblings, lat, nHwcs, ns, latencies, socketLevel, done, s, t);
      }
    }
  }

  ghost predicate InSocketOf(nodes: seq<Node>, sockets: seq<nat>, n: nat, socketLevel: nat, x: nat, s: nat) {
    x < n && s < |sockets| && Climbs(nodes, x, socketLevel) && Anc(nodes, x, socketLevel) == sockets[s]
  }

  lemma SocketDistances(nodes: seq<Node>, sockets: seq<nat>, firsts: seq<nat>, links: seq<Sibling>, lat: Table, n: nat,
                        ns: nat, med: seq<int>, socketLevel: nat, done: seq<bool>, s: nat, t: nat)
    requires BuiltFrom(nodes, sockets, firsts, links, lat, n, ns, med, socketLevel, done)
    requires s < ns && t < ns && s != t && s < |firsts| && t < |firsts|
    ensures firsts[s] < |lat| && firsts[t] < |lat[firsts[s]]| && lat[firsts[s]][firsts[t]] > med[socketLevel]
    ensures forall x: nat, y: nat ::
              InSocketOf(nodes, sockets, n, socketLevel, x, s) && InSocketOf(nodes, sockets, n, socketLevel, y, t) ==>
                x < |lat| && y < |lat[x]| && lat[x][y] == lat[firsts[s]][firsts[t]]
  {
    forall x: nat, y: nat
      | InSocketOf(nodes, sockets, n, socketLevel, x, s) && InSocketOf(nodes, sockets, n, socketLevel, y, t)
      ensures x < |lat| && y < |lat[x]| && firsts[s] < |lat| && firsts[t] < |lat[firsts[s]]|
      ensures lat[x][y] == lat[firsts[s]][firsts[t]]
    {
      SocketDistance(nodes, sockets, firsts, links, lat, n, ns, med, socketLevel, done, s, t, x, y);
    }
    FirstInSocket(nodes, sockets, firsts, links, lat, n, ns, med, socketLevel, done, s);
    FirstInSocket(nodes, sockets, firsts, links, lat, n, ns, med, socketLevel, done, t);
    SocketDistance(nodes, sockets, firsts, links, lat, n, ns, med, socketLevel, done, s, t, firsts[s], firsts[t]);
  }

  lemma FirstInSocket(nodes: seq<Node>, sockets: seq<nat>, firsts: seq<nat>, links: seq<Sibling>, lat: Table, n: nat,
                      ns: nat, med: seq<int>, socketLevel: nat, done: seq<bool>, s: nat)
    requires BuiltFrom(nodes, sockets, firsts, links, lat, n, ns, med, socketLevel, done) && s < ns && s < |firsts|
    ensures InSocketOf(nodes, sockets, n, socketLevel, firsts[s], s)
  {
    assert SocketFound(nodes, sockets, firsts, n, socketLevel, done, s);
    assert Climbs(nodes, firsts[s], socketLevel);
  }

  /** Contexts of two sockets are as far apart as the sockets' first contexts, and farther than a socket's level. */
  lemma SocketDistance(nodes: seq<Node>, sockets: seq<nat>, firsts: seq<nat>, links: seq<Sibling>, lat: Table, n: nat,
                       ns: nat, med: seq<int>, socketLevel: nat, done: seq<bool>, s: nat, t: nat, x: nat, y: nat)
    requires BuiltFrom(nodes, sockets, firsts, links, lat, n, ns, med, socketLevel, done)
    requires s < ns && t < ns && s != t && s < |firsts| && t < |firsts| && x < n && y < n
    requires Climbs(nodes, x, socketLevel) && Climbs(nodes, y, socketLevel)
    requires Anc(nodes, x, socketLevel) == sockets[s] && Anc(nodes, y, socketLevel) == sockets[t]
    ensures x < |lat| && y < |lat[x]| && firsts[s] < |lat| && firsts[t] < |lat[firsts[s]]|
    ensures lat[x][y] == lat[firsts[s]][firsts[t]] > med[socketLevel]
  {
    assert SocketFound(nodes, sockets, firsts, n, socketLevel, done, s);
    assert SocketFound(nodes, sockets, firsts, n, socketLevel, done, t);
    assert Climbs(nodes, firsts[s], socketLevel) && Climbs(nodes, firsts[t], socketLevel);
    assert SharesAt(nodes, lat, med, socketLevel, x, firsts[s]);
    assert SharesAt(nodes, lat, med, socketLevel, y, firsts[t]);
    assert SharesAt(nodes, lat, med, socketLevel, x, y);
    AcrossSockets(lat, n, med[socketLevel], x, y, firsts[s], firsts[t]);
  }

  lemma OwnDistance(lat: Table, n: nat, ns: nat, med: seq<int>, socketLevel: nat, x: nat)
    requires Levels(med, lat, n) && 0 < socketLevel < |med| && Hierarchy(lat, n, ns, med[socketLevel]) && x < n
    ensures lat[x][x] == 0 && 0 <= med[socketLevel]
  {
    assert DistancePair(lat, n, x, x);
  }

  /** The lowest level is that of a context with itself, and chains are whole. */
  lemma LowestIsZero(nodes: seq<Node>, lat: Table, med: seq<int>, n: nat, ns: nat, socketLevel: nat, x: nat, y: nat)
    requires Levels(med, lat, n) && 0 < socketLevel < |med| && Hierarchy(lat, n, ns, med[socketLevel])
    requires Complete(nodes, lat, med, n, socketLevel, socketLevel) && x < n && y < n
    ensures med[0] == 0 && Climbs(nodes, x, socketLevel) && Climbs(nodes, y, socketLevel)
    ensures x < |lat| && y < |lat[x]| && lat[x][y] >= 0
  {
    var level := LevelsStart(med, lat, n, ns, med[socketLevel]);
    assert DistancePair(lat, n, x, y);
  }

  /** Ancestors of one level are the same node exactly when the contexts are near at that level. */
  lemma SameLevel(nodes: seq<Node>, lat: Table, med: seq<int>, n: nat, socketLevel: nat, k: nat, x: nat, y: nat)
    requires Complete(nodes, lat, med, n, socketLevel, socketLevel) && x < n && y < n && k <= socketLevel
    ensures At(nodes, Anc(nodes, x, k), k) && At(nodes, Anc(nodes, y, k), k) && k < |med|
    ensures nodes[Anc(nodes, x, k)].latency == med[k]
    ensures nodes[Anc(nodes, x, k)].Id() == nodes[Anc(nodes, y, k)].Id() <==> Near(lat, med[k], x, y)
    ensures !Near(lat, med[k], x, y) ==> Apart(nodes, lat, med, k, x, y, Anc(nodes, x, k), Anc(nodes, y, k))
  {
    assert Climbs(nodes, x, socketLevel) && Climbs(nodes, y, socketLevel);
    assert At(nodes, Anc(nodes, x, k), k) && At(nodes, Anc(nodes, y, k), k);
    assert LabelledAt(nodes, med, n, Anc(nodes, x, k));
    assert SharesAt(nodes, lat, med, k, x, y);
    IdsDiffer(nodes, med, n, Anc(nodes, x, k), Anc(nodes, y, k));
  }

  lemma KindsAtLevel(nodes: seq<Node>, med: seq<int>, n: nat, lat: Table, socketLevel: nat, k: nat, x: nat, y: nat,
                     g0: nat, g1: nat)
    requires Complete(nodes, lat, med, n, socketLevel, socketLevel) && x < n && y < n && k <= socketLevel
             && 0 < socketLevel
    requires Apart(nodes, lat, med, k, x, y, g0, g1)
    ensures g0 < |nodes| && (nodes[g0].kind == SocketGroup <==> k == socketLevel)
    ensures g1 < |nodes| && (nodes[g1].kind == SocketGroup <==> k == socketLevel)
  {
    assert Climbs(nodes, x, socketLevel) && Climbs(nodes, y, socketLevel);
    assert At(nodes, Anc(nodes, x, k), k) && At(nodes, Anc(nodes, y, k), k);
    assert KindAt(nodes[g0], socketLevel) && KindAt(nodes[g1], socketLevel);
  }

  /** The climbs stand at different ancestors of level k. */
  ghost predicate Apart(nodes: seq<Node>, lat: Table, med: seq<int>, k: nat, x: nat, y: nat, g0: nat, g1: nat) {
    g0 == Anc(nodes, x, k) && g1 == Anc(nodes, y, k) && g0 != g1 && k < |med| && !Near(lat, med[k], x, y)
  }

  lemma ClimbOne(nodes: seq<Node>, lat: Table, med: seq<int>, n: nat, socketLevel: nat, k: nat, x: nat, y: nat,
                 g0: nat, g1: nat)
    requires Complete(nodes, lat, med, n, socketLevel, socketLevel) && x < n && y < n && k < socketLevel
    requires Apart(nodes, lat, med, k, x, y, g0, g1) && g0 < |nodes| && g1 < |nodes|
    ensures var (h0, h1) := (nodes[g0].parent, nodes[g1].parent);
            && 0 <= h0 < |nodes| && 0 <= h1 < |nodes| && k + 1 < |med|
            && h0 == Anc(nodes, x, k + 1) && h1 == Anc(nodes, y, k + 1)
            && (nodes[h0].Id() == nodes[h1].Id() <==> Near(lat, med[k + 1], x, y))
            && (nodes[h0].Id() == nodes[h1].Id() <==> h0 == h1) && nodes[h0].latency == med[k + 1]
            && (nodes[h0].kind == SocketGroup <==> k + 1 == socketLevel)
            && (nodes[h1].kind == SocketGroup <==> k + 1 == socketLevel)
  {
    var h0, h1 := nodes[g0].parent, nodes[g1].parent;
    assert Climbs(nodes, x, socketLevel) && Climbs(nodes, y, socketLevel);
    assert At(nodes, Anc(nodes, x, k + 1), k + 1) && At(nodes, Anc(nodes, y, k + 1), k + 1);
    assert SharesAt(nodes, lat, med, k + 1, x, y);
    IdsDiffer(nodes, med, n, h0, h1);
    assert LabelledAt(nodes, med, n, h0) && KindAt(nodes[h0], socketLevel) && KindAt(nodes[h1], socketLevel);
  }

  lemma LinksInRange(links: seq<Sibling>, lat: Table, n: nat, firsts: seq<nat>, med: seq<int>, from: nat, ns: nat)
    requires FirstsOk(lat, n, firsts) && Linking(links, lat, n, firsts, med, from, |med|, 0, 1) && |firsts| == ns
    ensures forall k :: 0 <= k < |links| ==> links[k].left < ns && links[k].right < ns
  {
    forall k | 0 <= k < |links| ensures links[k].left < ns && links[k].right < ns
    { assert LinkOk(lat, n, firsts, med, links[k]); }
  }

  /** The first link between the two contexts' sockets exists and has their latency. */
  lemma SocketAnswer(nodes: seq<Node>, sockets: seq<nat>, firsts: seq<nat>, links: seq<Sibling>, lat: Table, n: nat,
                     ns: nat,
                     med: seq<int>, socketLevel: nat, done: seq<bool>, x: nat, y: nat, i: nat)
    requires BuiltFrom(nodes, sockets, firsts, links, lat, n, ns, med, socketLevel, done) && x < n && y < n
    requires forall k :: 0 <= k < |links| ==> links[k].left < |sockets| && links[k].right < |sockets|
    requires i <= |links| && !Near(lat, med[socketLevel], x, y)
    requires i < |links| ==> JoinsNodes(sockets, links[i], Anc(nodes, x, socketLevel), Anc(nodes, y, socketLevel))
    requires i == |links| ==> forall k :: 0 <= k < |links| ==>
               !JoinsNodes(sockets, links[k], Anc(nodes, x, socketLevel), Anc(nodes, y, socketLevel))
    ensures i < |links| && links[i].latency == lat[x][y]
  {
    var t := med[socketLevel];
    var sx := SocketOf(nodes, sockets, firsts, links, lat, n, ns, med, socketLevel, done, x);
    var sy := SocketOf(nodes, sockets, firsts, links, lat, n, ns, med, socketLevel, done, y);
    assert ClassesAt(lat, n, t);
    AcrossSockets(lat, n, t, x, y, firsts[sx], firsts[sy]);
    assert DistancePair(lat, n, firsts[sx], firsts[sx]);
    if sx < sy {
      SocketsLinked(links, lat, n, firsts, med, socketLevel, sx, sy);
    } else {
      NearSym(lat, n, t, firsts[sx], firsts[sy]);
      SocketsLinked(links, lat, n, firsts, med, socketLevel, sy, sx);
    }
    SocketNodesDiffer(nodes, sockets, firsts, n, socketLevel, done);
    assert i < |links|;
    assert LinkOk(lat, n, firsts, med, links[i]);
  }

  predicate JoinsNodes(sockets: seq<nat>, link: Sibling, s0: int, s1: int)
    requires link.left < |sockets| && link.right < |sockets|
  {
    (sockets[link.left] == s0 && sockets[link.right] == s1) || (sockets[link.left] == s1 && sockets[link.right] == s0)
  }

  lemma SocketNodesDiffer(nodes: seq<Node>, sockets: seq<nat>, firsts: seq<nat>, n: nat, level: nat, done: seq<bool>)
    requires SocketsFound(nodes, sockets, firsts, n, level, done)
    ensures forall s, t :: 0 <= s < t < |sockets| ==> sockets[s] != sockets[t]
  {
    forall s, t | 0 <= s < t < |sockets| ensures sockets[s] != sockets[t] {
      assert SocketFound(nodes, sockets, firsts, n, level, done, s)
             && SocketFound(nodes, sockets, firsts, n, level, done, t);
    }
  }
}
