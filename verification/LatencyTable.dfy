/** Normalised latency tables and the hierarchy the inference expects of them, and how
    contexts are grouped at one latency level. */
module LatencyTable {

  type Table = seq<seq<int>>

  ghost predicate Square(lat: Table, n: nat) {
    |lat| == n && forall x :: 0 <= x < n ==> |lat[x]| == n
  }

  /** Symmetric, not negative, and zero only on the diagonal. */
  ghost predicate Distances(lat: Table, n: nat) {
    Square(lat, n) && forall x, y :: 0 <= x < n && 0 <= y < n ==> DistancePair(lat, n, x, y)
  }

  ghost predicate DistancePair(lat: Table, n: nat, x: nat, y: nat)
    requires Square(lat, n) && x < n && y < n
  {
    lat[x][y] == lat[y][x] && 0 <= lat[x][y] && (lat[x][y] == 0 <==> x == y)
  }

  ghost predicate Near(lat: Table, t: int, x: nat, y: nat) {
    x < |lat| && y < |lat[x]| && lat[x][y] <= t
  }

  /** Being near is transitive, and near contexts are equally far from all others. */
  ghost predicate ClassesAt(lat: Table, n: nat, t: int)
    requires Square(lat, n)
  {
    forall x, y, w :: 0 <= x < n && 0 <= y < n && 0 <= w < n && Near(lat, t, x, y) ==> SameView(lat, n, t, x, y, w)
  }

  ghost predicate SameView(lat: Table, n: nat, t: int, x: nat, y: nat, w: nat)
    requires Square(lat, n) && x < n && y < n && w < n
  {
    if Near(lat, t, x, w) then Near(lat, t, y, w) else lat[x][w] == lat[y][w]
  }

  ghost function Class(lat: Table, n: nat, t: int, x: nat): (c: set<nat>)
    requires Square(lat, n) && x < n
    ensures forall y: nat :: y in c <==> y < n && Near(lat, t, x, y)
  {
    set y: nat | y < n && Near(lat, t, x, y)
  }

  ghost predicate Occurs(lat: Table, n: nat, v: int) {
    exists x: nat, y: nat :: x < n && OccursFrom(lat, n, v, x, y)
  }

  ghost predicate OccursFrom(lat: Table, n: nat, v: int, x: nat, y: nat) {
    y < n && x < |lat| && y < |lat[x]| && lat[x][y] == v
  }

  /** What a machine with ns sockets looks like: up to the socket latency `sock` the levels
      are nested classes, every such level occurs for every context, and the classes of
      the socket latency are the ns sockets. */
  ghost predicate Hierarchy(lat: Table, n: nat, ns: nat, sock: int) {
    && n < 10000 && ns > 0 && ns * (n / ns) == n && n / ns > 1
    && Distances(lat, n) && sock > 0 && Occurs(lat, n, sock)
    && (forall t :: 0 <= t <= sock ==> ClassesAt(lat, n, t))
    && (forall v, x :: 0 < v <= sock && Occurs(lat, n, v) && 0 <= x < n ==> Reaches(lat, n, v, x))
    && (forall x :: 0 <= x < n ==> SocketSized(lat, n, ns, sock, x))
  }

  ghost predicate Reaches(lat: Table, n: nat, v: int, x: nat) {
    exists y: nat :: OccursFrom(lat, n, v, x, y)
  }

  ghost predicate SocketSized(lat: Table, n: nat, ns: nat, sock: int, x: nat)
    requires Square(lat, n) && x < n && ns > 0
  {
    |Class(lat, n, sock, x)| == n / ns
  }

  lemma NearSym(lat: Table, n: nat, t: int, x: nat, y: nat)
    requires Distances(lat, n) && x < n && y < n
    ensures Near(lat, t, x, y) <==> Near(lat, t, y, x)
  {
    assert DistancePair(lat, n, x, y);
  }

  lemma NearTrans(lat: Table, n: nat, t: int, x: nat, y: nat, z: nat)
    requires Distances(lat, n) && ClassesAt(lat, n, t) && x < n && y < n && z < n
    requires Near(lat, t, x, y)
    ensures Near(lat, t, x, z) <==> Near(lat, t, y, z)
  {
    NearSym(lat, n, t, x, y);
    assert SameView(lat, n, t, x, y, z) && SameView(lat, n, t, y, x, z);
  }

  // ------------------------------------------------------------ grouping one level

  /** One test of the grouping loop: may y join the group started by x, as far as w is concerned. */
  predicate Agrees(lat: Table, t: int, group: seq<nat>, x: nat, y: nat, w: nat)
    requires x < |lat| && y < |lat| && w < |lat| && forall i :: 0 <= i < |lat| ==> |lat[i]| == |lat|
  {
    if w in group then lat[w][y] <= t
    else lat[x][w] < t || lat[y][w] < t || lat[x][w] == lat[y][w]
  }

  /** y's check against all other contexts. */
  method Belongs(lat: Table, n: nat, t: int, group: seq<nat>, x: nat, y: nat) returns (belongs: bool)
    requires Square(lat, n) && x < n && y < n
    ensures belongs <==> forall w :: 0 <= w < n && w != y ==> Agrees(lat, t, group, x, y, w)
  {
    belongs := true;
    var w: nat := 0;
    while belongs && w < n
      invariant w <= n
      invariant belongs ==> forall v :: 0 <= v < w && v != y ==> Agrees(lat, t, group, x, y, v)
      invariant !belongs ==> exists v :: 0 <= v < n && v != y && !Agrees(lat, t, group, x, y, v)
      decreases belongs, n - w
    {
      if w != y { belongs := Agrees(lat, t, group, x, y, w); }
      w := w + 1;
    }
  }

  /** The near contexts from x up to k, in order. */
  function ClassList(lat: Table, t: int, x: nat, k: nat): (s: seq<nat>)
    requires x <= k <= |lat| && x < |lat| && forall i :: 0 <= i < |lat| ==> |lat[i]| == |lat|
    ensures forall y :: y in s <==> x <= y < k && lat[x][y] <= t
    decreases k - x
  {
    if k == x then []
    else
      var rest := ClassList(lat, t, x, k - 1);
      if lat[x][k - 1] <= t then rest + [k - 1] else rest
  }

  /** In a hierarchy the elaborate test is just nearness to the first member. */
  lemma BelongsIsNear(lat: Table, n: nat, t: int, group: seq<nat>, x: nat, y: nat)
    requires Distances(lat, n) && ClassesAt(lat, n, t) && x < y < n && x in group
    requires forall w :: w in group ==> w < n && Near(lat, t, x, w)
    ensures (forall w :: 0 <= w < n && w != y ==> Agrees(lat, t, group, x, y, w)) <==> Near(lat, t, x, y)
  {
    if Near(lat, t, x, y) {
      forall w | 0 <= w < n && w != y ensures Agrees(lat, t, group, x, y, w) { NearAgrees(lat, n, t, group, x, y, w); }
    } else {
      assert !Agrees(lat, t, group, x, y, x);
    }
  }

  lemma NearAgrees(lat: Table, n: nat, t: int, group: seq<nat>, x: nat, y: nat, w: nat)
    requires Distances(lat, n) && ClassesAt(lat, n, t) && x < n && y < n && w < n
    requires Near(lat, t, x, y) && (w in group ==> Near(lat, t, x, w))
    ensures Agrees(lat, t, group, x, y, w)
  {
    NearTrans(lat, n, t, x, y, w);
    NearSym(lat, n, t, y, w);
    assert SameView(lat, n, t, x, y, w);
  }

  /** The group that context x starts: x and every later context that belongs. */
  method CollectGroup(lat: Table, n: nat, t: int, x: nat) returns (group: seq<nat>)
    requires Distances(lat, n) && ClassesAt(lat, n, t) && x < n && t >= 0
    ensures group == ClassList(lat, t, x, n)
  {
    assert DistancePair(lat, n, x, x);
    group := [x];
    var y := x + 1;
    assert ClassList(lat, t, x, x + 1) == ClassList(lat, t, x, x) + [x];
    while y < n
      invariant x < y <= n && group == ClassList(lat, t, x, y)
    {
      BelongsIsNear(lat, n, t, group, x, y);
      var belongs := Belongs(lat, n, t, group, x, y);
      if belongs { group := group + [y]; }
      y := y + 1;
    }
  }

  // -------------------------------------------------------------------- class sizes

  ghost function NearFrom(lat: Table, t: int, x: nat, k: nat): (c: set<nat>)
    requires x <= k <= |lat| && x < |lat| && forall i :: 0 <= i < |lat| ==> |lat[i]| == |lat|
    ensures forall y: nat :: y in c <==> x <= y < k && Near(lat, t, x, y)
  {
    set y: nat | x <= y < k && Near(lat, t, x, y)
  }

  lemma {:induction false} ClassListSize(lat: Table, t: int, x: nat, k: nat)
    requires x <= k <= |lat| && x < |lat| && forall i :: 0 <= i < |lat| ==> |lat[i]| == |lat|
    ensures |ClassList(lat, t, x, k)| == |NearFrom(lat, t, x, k)|
    decreases k - x
  {
    var s := NearFrom(lat, t, x, k);
    if k == x {
      assert s == {};
    } else {
      ClassListSize(lat, t, x, k - 1);
      var s' := NearFrom(lat, t, x, k - 1);
      assert s == if lat[x][k - 1] <= t then s' + {k - 1} else s';
    }
  }

  /** The smallest context of a class lists the whole class. */
  lemma ClassListIsClass(lat: Table, n: nat, t: int, x: nat)
    requires Square(lat, n) && x < n && forall y :: 0 <= y < x ==> !Near(lat, t, x, y)
    ensures forall y :: y in ClassList(lat, t, x, n) <==> y in Class(lat, n, t, x)
    ensures |ClassList(lat, t, x, n)| == |Class(lat, n, t, x)|
  {
    ClassListSize(lat, t, x, n);
    assert Class(lat, n, t, x) == NearFrom(lat, t, x, n);
  }

  // ---------------------------------------------------------------------- an example

  /** Two sockets of two contexts: 30 cycles inside a socket, 100 across. */
  function TwoByTwo(): Table {
    [[0, 30, 100, 100], [30, 0, 100, 100], [100, 100, 0, 30], [100, 100, 30, 0]]
  }

  lemma TwoByTwoClass(x: nat)
    requires x < 4
    ensures Class(TwoByTwo(), 4, 30, x) == if x < 2 then {0, 1} else {2, 3}
  {
    var lat := TwoByTwo();
    assert lat[0] == [0, 30, 100, 100] && lat[1] == [30, 0, 100, 100];
    assert lat[2] == [100, 100, 0, 30] && lat[3] == [100, 100, 30, 0];
  }

  /** The hierarchy's conditions can be met. */
  lemma TwoByTwoIsHierarchy()
    ensures Hierarchy(TwoByTwo(), 4, 2, 30)
  {
    var lat := TwoByTwo();
    assert lat[0] == [0, 30, 100, 100] && lat[1] == [30, 0, 100, 100];
    assert lat[2] == [100, 100, 0, 30] && lat[3] == [100, 100, 30, 0];
    assert OccursFrom(lat, 4, 30, 0, 1) && OccursFrom(lat, 4, 30, 1, 0);
    assert OccursFrom(lat, 4, 30, 2, 3) && OccursFrom(lat, 4, 30, 3, 2);
    forall x | 0 <= x < 4 ensures SocketSized(lat, 4, 2, 30, x) { TwoByTwoClass(x); }
    forall v, x | 0 < v <= 30 && Occurs(lat, 4, v) && 0 <= x < 4 ensures Reaches(lat, 4, v, x) {
      var i: nat, j: nat :| i < 4 && OccursFrom(lat, 4, v, i, j);
      assert v == 30;
    }
    forall t | 0 <= t <= 30 ensures ClassesAt(lat, 4, t) {}
  }
}
