/** The 4-wide merge: the bitonic network on two vectors, and the streaming merge of
    whole blocks built on it. */
module SseMerge {
  import opened SortedSeqs

  /** Four lanes, lane 0 first. */
  datatype Vec = Vec(v0: int, v1: int, v2: int, v3: int) {
    function Keys(): (s: seq<int>)
      ensures |s| == 4
    { [v0, v1, v2, v3] }

    ghost predicate Ascending() { v0 <= v1 <= v2 <= v3 }
  }

  function Lower(x: int, y: int): int { if x <= y then x else y }
  function Upper(x: int, y: int): int { if x <= y then y else x }

  function MinPs(a: Vec, b: Vec): Vec {
    Vec(Lower(a.v0, b.v0), Lower(a.v1, b.v1), Lower(a.v2, b.v2), Lower(a.v3, b.v3))
  }

  function MaxPs(a: Vec, b: Vec): Vec {
    Vec(Upper(a.v0, b.v0), Upper(a.v1, b.v1), Upper(a.v2, b.v2), Upper(a.v3, b.v3))
  }

  /** Shuffle with mask (0,1,2,3) of a vector with itself: lanes reversed. */
  function Reverse(b: Vec): Vec { Vec(b.v3, b.v2, b.v1, b.v0) }

  /** Shuffles with masks (1,0,1,0) and (3,2,3,2). */
  function LowHalves(a: Vec, b: Vec): Vec { Vec(a.v0, a.v1, b.v0, b.v1) }
  function HighHalves(a: Vec, b: Vec): Vec { Vec(a.v2, a.v3, b.v2, b.v3) }

  function UnpackLo(a: Vec, b: Vec): Vec { Vec(a.v0, b.v0, a.v1, b.v1) }
  function UnpackHi(a: Vec, b: Vec): Vec { Vec(a.v2, b.v2, a.v3, b.v3) }

  /** The network, instruction by instruction. */
  function BitonicMerge4(a: Vec, b: Vec): (Vec, Vec) {
    var b' := Reverse(b);
    var l1, h1 := MinPs(a, b'), MaxPs(a, b');
    var l1p, h1p := LowHalves(l1, h1), HighHalves(l1, h1);
    var l2, h2 := MinPs(l1p, h1p), MaxPs(l1p, h1p);
    var l2u, h2u := UnpackLo(l2, h2), UnpackHi(l2, h2);
    var l2p, h2p := LowHalves(l2u, h2u), HighHalves(l2u, h2u);
    var l3, h3 := MinPs(l2p, h2p), MaxPs(l2p, h2p);
    (UnpackLo(l3, h3), UnpackHi(l3, h3))
  }

  // ------------------------------------------------------------- the network

  /** What the first stage leaves in each half: even and odd lanes interleave. */
  ghost predicate Bitonic(x0: int, x1: int, x2: int, x3: int) {
    Lower(x0, x2) <= Upper(x1, x3) && Lower(x1, x3) <= Upper(x0, x2)
  }

  lemma FirstStage(a: Vec, b: Vec)
    requires a.Ascending() && b.Ascending()
    ensures var (l, h) := (MinPs(a, Reverse(b)), MaxPs(a, Reverse(b)));
            Bitonic(l.v0, l.v1, l.v2, l.v3) && Bitonic(h.v0, h.v1, h.v2, h.v3)
  {}

  /** What the two remaining stages do with a half. */
  function LastTwo(x: Vec): Vec {
    var p, q, r, s := Lower(x.v0, x.v2), Lower(x.v1, x.v3), Upper(x.v0, x.v2), Upper(x.v1, x.v3);
    Vec(Lower(p, q), Upper(p, q), Lower(r, s), Upper(r, s))
  }

  /** After the first stage the halves stay apart. */
  lemma NetworkHalves(a: Vec, b: Vec)
    ensures BitonicMerge4(a, b) == (LastTwo(MinPs(a, Reverse(b))), LastTwo(MaxPs(a, Reverse(b))))
  {}

  /** They sort a bitonic half. */
  lemma LastStages(x: Vec)
    requires Bitonic(x.v0, x.v1, x.v2, x.v3)
    ensures LastTwo(x).Ascending()
    ensures LastTwo(x).v0 == Lower(Lower(x.v0, x.v1), Lower(x.v2, x.v3))
    ensures LastTwo(x).v3 == Upper(Upper(x.v0, x.v1), Upper(x.v2, x.v3))
  {}

  lemma LastTwoKeeps(x: Vec, v: int)
    requires v in x.Keys()
    ensures v in LastTwo(x).Keys()
  {
    var y := LastTwo(x);
    assert y.Keys()[0] == y.v0 && y.Keys()[1] == y.v1 && y.Keys()[2] == y.v2 && y.Keys()[3] == y.v3;
  }

  /** A key smaller than all of `b` leaves the network in the lower half, in whatever order `a` is. */
  lemma LowStaysLow(a: Vec, b: Vec, v: int)
    requires v in a.Keys() && v < b.v0 && v < b.v1 && v < b.v2 && v < b.v3
    ensures v in BitonicMerge4(a, b).0.Keys()
  {
    var l := MinPs(a, Reverse(b));
    assert l.Keys()[0] == l.v0 && l.Keys()[1] == l.v1 && l.Keys()[2] == l.v2 && l.Keys()[3] == l.v3;
    NetworkHalves(a, b);
    LastTwoKeeps(l, v);
  }

  function Is(x: int, y: int): nat { if x == y then 1 else 0 }

  /** How often x occurs in two vectors. */
  function Count(a: Vec, b: Vec, x: int): nat {
    Is(a.v0, x) + Is(a.v1, x) + Is(a.v2, x) + Is(a.v3, x) + Is(b.v0, x) + Is(b.v1, x) + Is(b.v2, x) + Is(b.v3, x)
  }

  lemma CompareSwap(x: int, y: int, z: int)
    ensures Is(Lower(x, y), z) + Is(Upper(x, y), z) == Is(x, z) + Is(y, z)
  {}

  lemma CompareSwapCount(a: Vec, b: Vec, x: int)
    ensures Count(MinPs(a, b), MaxPs(a, b), x) == Count(a, b, x)
  {
    CompareSwap(a.v0, b.v0, x);
    CompareSwap(a.v1, b.v1, x);
    CompareSwap(a.v2, b.v2, x);
    CompareSwap(a.v3, b.v3, x);
  }

  lemma ShuffleCount(a: Vec, b: Vec, x: int)
    ensures Count(LowHalves(a, b), HighHalves(a, b), x) == Count(a, b, x)
    ensures Count(UnpackLo(a, b), UnpackHi(a, b), x) == Count(a, b, x)
    ensures Count(a, Reverse(b), x) == Count(a, b, x)
  {}

  lemma NetworkCount(a: Vec, b: Vec, x: int)
    ensures Count(BitonicMerge4(a, b).0, BitonicMerge4(a, b).1, x) == Count(a, b, x)
  {
    var b' := Reverse(b);
    var l1, h1 := MinPs(a, b'), MaxPs(a, b');
    var l1p, h1p := LowHalves(l1, h1), HighHalves(l1, h1);
    var l2, h2 := MinPs(l1p, h1p), MaxPs(l1p, h1p);
    var l2u, h2u := UnpackLo(l2, h2), UnpackHi(l2, h2);
    var l2p, h2p := LowHalves(l2u, h2u), HighHalves(l2u, h2u);
    var l3, h3 := MinPs(l2p, h2p), MaxPs(l2p, h2p);
    ShuffleCount(a, b, x);
    CompareSwapCount(a, b', x);
    ShuffleCount(l1, h1, x);
    CompareSwapCount(l1p, h1p, x);
    ShuffleCount(l2, h2, x);
    ShuffleCount(l2u, h2u, x);
    CompareSwapCount(l2p, h2p, x);
    ShuffleCount(l3, h3, x);
  }

  lemma AppendCount(s: seq<int>, y: int, x: int)
    ensures multiset(s + [y])[x] == multiset(s)[x] + Is(y, x)
  {}

  lemma PairCount(p: int, q: int, x: int)
    ensures multiset([p, q])[x] == Is(p, x) + Is(q, x)
  {
    assert [p, q] == ([] + [p]) + [q];
    AppendCount([], p, x);
    AppendCount([] + [p], q, x);
  }

  lemma JoinCount(s: seq<int>, t: seq<int>, x: int)
    ensures multiset(s + t)[x] == multiset(s)[x] + multiset(t)[x]
  {}

  lemma KeysCount(a: Vec, x: int)
    ensures multiset(a.Keys())[x] == Is(a.v0, x) + Is(a.v1, x) + Is(a.v2, x) + Is(a.v3, x)
  {
    var low, high := [a.v0, a.v1], [a.v2, a.v3];
    PairCount(a.v0, a.v1, x);
    PairCount(a.v2, a.v3, x);
    JoinCount(low, high, x);
    assert a.Keys() == low + high;
  }

  lemma SameCount(a: Vec, b: Vec, x: int)
    ensures multiset(BitonicMerge4(a, b).0.Keys())[x] + multiset(BitonicMerge4(a, b).1.Keys())[x]
         == multiset(a.Keys())[x] + multiset(b.Keys())[x]
  {
    NetworkCount(a, b, x);
    KeysCount(a, x);
    KeysCount(b, x);
    KeysCount(BitonicMerge4(a, b).0, x);
    KeysCount(BitonicMerge4(a, b).1, x);
  }

  /** The network only permutes. */
  lemma NetworkPermutes(a: Vec, b: Vec)
    ensures multiset(BitonicMerge4(a, b).0.Keys()) + multiset(BitonicMerge4(a, b).1.Keys())
         == multiset(a.Keys()) + multiset(b.Keys())
  {
    var lo, hi := multiset(BitonicMerge4(a, b).0.Keys()), multiset(BitonicMerge4(a, b).1.Keys());
    SameSums(a, b, lo, hi);
    EqualSums(lo, hi, multiset(a.Keys()), multiset(b.Keys()));
  }

  lemma SameSums(a: Vec, b: Vec, lo: multiset<int>, hi: multiset<int>)
    requires lo == multiset(BitonicMerge4(a, b).0.Keys()) && hi == multiset(BitonicMerge4(a, b).1.Keys())
    ensures forall x :: lo[x] + hi[x] == multiset(a.Keys())[x] + multiset(b.Keys())[x]
  {
    forall x { SameCount(a, b, x); }
  }

  lemma EqualSums(p: multiset<int>, q: multiset<int>, r: multiset<int>, s: multiset<int>)
    requires forall x :: p[x] + q[x] == r[x] + s[x]
    ensures p + q == r + s
  {
    forall x ensures (p + q)[x] == (r + s)[x] { assert p[x] + q[x] == r[x] + s[x]; }
  }

  /** Two ascending vectors come out as one ascending run of eight, and the lower
      four lie below the top of either input. */
  lemma NetworkSorts(a: Vec, b: Vec)
    requires a.Ascending() && b.Ascending()
    ensures var (lo, hi) := BitonicMerge4(a, b);
            && lo.Ascending() && hi.Ascending() && lo.v3 <= hi.v0
            && lo.v0 == Lower(a.v0, b.v0) && lo.v3 <= a.v3 && lo.v3 <= b.v3 && hi.v3 == Upper(a.v3, b.v3)
  {
    var l, h := MinPs(a, Reverse(b)), MaxPs(a, Reverse(b));
    FirstStage(a, b);
    NetworkHalves(a, b);
    LastStages(l);
    LastStages(h);
    HalvesEnds(a, b, l, h);
  }

  /** The ends of the two halves, from the lanes of the inputs. */
  lemma HalvesEnds(a: Vec, b: Vec, l: Vec, h: Vec)
    requires a.Ascending() && b.Ascending() && l == MinPs(a, Reverse(b)) && h == MaxPs(a, Reverse(b))
    ensures Lower(Lower(l.v0, l.v1), Lower(l.v2, l.v3)) == Lower(a.v0, b.v0)
    ensures Upper(Upper(l.v0, l.v1), Upper(l.v2, l.v3)) <= Lower(Lower(h.v0, h.v1), Lower(h.v2, h.v3))
    ensures Upper(Upper(l.v0, l.v1), Upper(l.v2, l.v3)) <= Lower(a.v3, b.v3)
    ensures Upper(Upper(h.v0, h.v1), Upper(h.v2, h.v3)) == Upper(a.v3, b.v3)
  {}

  // --------------------------------------------------------- block streaming

  /** Block k of a run of keys. */
  function Load(s: seq<int>, k: nat): (v: Vec)
    requires 4 * k + 4 <= |s|
  {
    Vec(s[4 * k], s[4 * k + 1], s[4 * k + 2], s[4 * k + 3])
  }

  ghost predicate AtMost(s: seq<int>, x: int) {
    forall y :: y in s ==> y <= x
  }

  /** The first i blocks of `a` and j blocks of `b` are in `out` and `next`, nothing
      in `out` exceeds anything still to come, and the top of `next` does not exceed
      the larger of the two heads. */
  ghost predicate Stream(a: seq<int>, b: seq<int>, i: nat, j: nat, out: seq<int>, next: Vec) {
    && 4 * i <= |a| && 4 * j <= |b| && |out| + 4 == 4 * i + 4 * j
    && next.Ascending() && Sorted(out) && AtMost(out, next.v0)
    && multiset(out) + multiset(next.Keys()) == multiset(a[..4 * i]) + multiset(b[..4 * j])
    && (4 * i < |a| ==> AtMost(out, a[4 * i])) && (4 * j < |b| ==> AtMost(out, b[4 * j]))
    && (4 * i < |a| && 4 * j < |b| ==> next.v3 <= Upper(a[4 * i], b[4 * j]))
  }

  lemma LoadAscends(s: seq<int>, k: nat)
    requires Sorted(s) && 4 * k + 4 <= |s|
    ensures Load(s, k).Ascending() && (4 * k + 4 < |s| ==> Load(s, k).v3 <= s[4 * k + 4])
    ensures multiset(s[..4 * k + 4]) == multiset(s[..4 * k]) + multiset(Load(s, k).Keys())
  {
    var n := 4 * k;
    assert Ordered(s, n, n + 1) && Ordered(s, n + 1, n + 2) && Ordered(s, n + 2, n + 3) && Ordered(s, n + 3, n + 4);
    assert s[..n + 4] == s[..n] + Load(s, k).Keys();
  }

  lemma AppendBlock(out: seq<int>, v: Vec)
    requires Sorted(out) && v.Ascending() && AtMost(out, v.v0)
    ensures Sorted(out + v.Keys()) && AtMost(out + v.Keys(), v.v3)
  {
    assert Sorted(v.Keys()) by {
      forall i, j ensures Ordered(v.Keys(), i, j) {}
    }
    SortedConcat(out, v.Keys());
  }

  lemma Regroup(o: multiset<int>, n: multiset<int>, x: multiset<int>, lo: multiset<int>, hi: multiset<int>,
                a: multiset<int>, b: multiset<int>)
    requires o + n == a + b && lo + hi == n + x
    ensures (o + lo) + hi == (a + x) + b
  {
    assert (o + lo) + hi == o + (lo + hi);
    assert o + (n + x) == (o + n) + x;
    assert (a + b) + x == (a + x) + b;
  }

  /** All that streaming needs to know about a pass through the network. */
  ghost predicate Pass(next: Vec, x: Vec, lo: Vec, hi: Vec) {
    && lo.Ascending() && hi.Ascending() && lo.v3 <= hi.v0 && lo.v0 == Lower(next.v0, x.v0)
    && lo.v3 <= next.v3 && lo.v3 <= x.v3 && hi.v3 == Upper(next.v3, x.v3)
    && multiset(lo.Keys()) + multiset(hi.Keys()) == multiset(next.Keys()) + multiset(x.Keys())
  }

  lemma NetworkPasses(next: Vec, x: Vec)
    requires next.Ascending() && x.Ascending()
    ensures Pass(next, x, BitonicMerge4(next, x).0, BitonicMerge4(next, x).1)
  {
    NetworkSorts(next, x);
    NetworkPermutes(next, x);
  }

  lemma PassKeys(a: seq<int>, b: seq<int>, i: nat, j: nat, out: seq<int>, next: Vec, lo: Vec, hi: Vec)
    requires Sorted(a) && 4 * i + 4 <= |a| && 4 * j <= |b| && Pass(next, Load(a, i), lo, hi)
    requires multiset(out) + multiset(next.Keys()) == multiset(a[..4 * i]) + multiset(b[..4 * j])
    ensures multiset(out + lo.Keys()) + multiset(hi.Keys()) == multiset(a[..4 * i + 4]) + multiset(b[..4 * j])
  {
    LoadAscends(a, i);
    Regroup(multiset(out), multiset(next.Keys()), multiset(Load(a, i).Keys()), multiset(lo.Keys()),
            multiset(hi.Keys()), multiset(a[..4 * i]), multiset(b[..4 * j]));
  }

  /** What a pass leaves in `out` is still below all that is to come. */
  lemma PassOrder(a: seq<int>, b: seq<int>, i: nat, j: nat, out: seq<int>, next: Vec, lo: Vec, hi: Vec)
    requires Sorted(a) && Stream(a, b, i, j, out, next) && 4 * i + 4 <= |a|
    requires 4 * j < |b| ==> a[4 * i] <= b[4 * j]
    requires Pass(next, Load(a, i), lo, hi)
    ensures Sorted(out + lo.Keys()) && AtMost(out + lo.Keys(), lo.v3)
    ensures 4 * i + 4 < |a| ==> lo.v3 <= a[4 * i + 4]
    ensures 4 * j < |b| ==> lo.v3 <= b[4 * j]
    ensures 4 * i + 4 < |a| && 4 * j < |b| ==> hi.v3 <= Upper(a[4 * i + 4], b[4 * j])
  {
    LoadAscends(a, i);
    AppendBlock(out, lo);
  }

  lemma AtMostWeaken(s: seq<int>, x: int, y: int)
    requires AtMost(s, x) && x <= y
    ensures AtMost(s, y)
  {}

  /** Consuming a block of the side whose head is not the larger. */
  lemma StreamPass(a: seq<int>, b: seq<int>, i: nat, j: nat, out: seq<int>, next: Vec, lo: Vec, hi: Vec)
    requires Sorted(a) && Stream(a, b, i, j, out, next) && 4 * i + 4 <= |a|
    requires 4 * j < |b| ==> a[4 * i] <= b[4 * j]
    requires Pass(next, Load(a, i), lo, hi)
    ensures Stream(a, b, i + 1, j, out + lo.Keys(), hi)
  {
    PassOrder(a, b, i, j, out, next, lo, hi);
    PassKeys(a, b, i, j, out, next, lo, hi);
    AtMostWeaken(out + lo.Keys(), lo.v3, hi.v0);
    assert 4 * (i + 1) == 4 * i + 4;
  }

  /** The first block taken, from either side, starts the stream. */
  lemma StreamStart(a: seq<int>, b: seq<int>)
    requires Sorted(a) && |a| >= 4
    ensures Stream(a, b, 1, 0, [], Load(a, 0))
  {
    LoadAscends(a, 0);
    assert a[..4] == Load(a, 0).Keys();
    assert b[..0] == [];
  }

  /** When both sides are used up, what was written and `next` are the merge. */
  lemma StreamEnd(a: seq<int>, b: seq<int>, i: nat, j: nat, out: seq<int>, next: Vec)
    requires Sorted(a) && Sorted(b) && Stream(a, b, i, j, out, next) && 4 * i == |a| && 4 * j == |b|
    ensures out + next.Keys() == Merge(a, b)
  {
    AppendBlock(out, next);
    assert a[..4 * i] == a && b[..4 * j] == b;
    MergeSorted(a, b);
    MergeMultiset(a, b);
    SortedUnique(out + next.Keys(), Merge(a, b));
  }

  /** `a` is nA whole blocks and `b` nB. */
  ghost predicate Blocked(a: seq<int>, b: seq<int>, nA: nat, nB: nat) {
    |a| == 4 * nA && |b| == 4 * nB
  }

  /** The side a round takes its block from: the smaller head, `b` on a tie. */
  ghost predicate TakesA(a: seq<int>, b: seq<int>, nA: nat, nB: nat, i: nat, j: nat)
    requires Blocked(a, b, nA, nB)
  {
    i < nA && (j >= nB || a[4 * i] < b[4 * j])
  }

  type Network = (Vec, Vec) -> (Vec, Vec)

  /** What the stream loop stores from the state (i, j, next) on. */
  ghost function Rounds(net: Network, a: seq<int>, b: seq<int>, nA: nat, nB: nat, i: nat, j: nat,
                        next: Vec): (r: seq<int>)
    requires Blocked(a, b, nA, nB) && i <= nA && j <= nB
    ensures |r| == 4 * (nA + nB - i - j + 1)
    decreases nA + nB - i - j
  {
    if i >= nA && j >= nB then next.Keys()
    else if TakesA(a, b, nA, nB, i, j) then
      var p := net(next, Load(a, i)); p.0.Keys() + Rounds(net, a, b, nA, nB, i + 1, j, p.1)
    else
      var p := net(next, Load(b, j)); p.0.Keys() + Rounds(net, a, b, nA, nB, i, j + 1, p.1)
  }

  /** The keys of `s` and what lies behind them. */
  function WithBehind(s: seq<int>, behind: seq<int>): seq<int> { s + behind }

  /** The side the first block comes from has a whole block left. */
  ghost predicate FirstIsWhole(a: seq<int>, b: seq<int>, nA: nat, nB: nat)
    requires a != [] && b != []
  {
    if a[0] < b[0] then nB > 0 else nA > 0
  }

  /** All that the block merge of nA blocks of `a` with nB of `b` stores. The first block
      comes from the side whose head is not the smaller one. A side without a whole block
      gives its few keys and the ones behind them, and the loop takes that side's
      blocks no more. */
  ghost function Blocks(net: Network, a: seq<int>, b: seq<int>, nA: nat, nB: nat, behindA: seq<int>, behindB: seq<int>)
    : (r: seq<int>)
    requires a != [] && b != [] && 4 * nA <= |a| && 4 * nB <= |b| && |behindA| == |behindB| == 3
    ensures |r| == 4 * nA + 4 * nB + if FirstIsWhole(a, b, nA, nB) then 0 else 4
  {
    var ba, bb := a[..4 * nA], b[..4 * nB];
    if a[0] < b[0] then Rounds(net, ba, bb, nA, nB, 0, if nB > 0 then 1 else 0, Load(WithBehind(b, behindB), 0))
    else Rounds(net, ba, bb, nA, nB, if nA > 0 then 1 else 0, 0, Load(WithBehind(a, behindA), 0))
  }

  ghost predicate Merges(net: Network) {
    forall x: Vec, y: Vec :: x.Ascending() && y.Ascending() ==> Pass(x, y, net(x, y).0, net(x, y).1)
  }

  lemma StreamStepA(net: Network, a: seq<int>, b: seq<int>, i: nat, j: nat, out: seq<int>, next: Vec, lo: Vec, hi: Vec)
    requires Merges(net) && Sorted(a) && Stream(a, b, i, j, out, next) && 4 * i + 4 <= |a|
    requires (4 * j < |b| ==> a[4 * i] <= b[4 * j]) && (lo, hi) == net(next, Load(a, i))
    ensures Stream(a, b, i + 1, j, out + lo.Keys(), hi)
  {
    LoadAscends(a, i);
    StreamPass(a, b, i, j, out, next, lo, hi);
  }

  lemma StreamStepB(net: Network, a: seq<int>, b: seq<int>, i: nat, j: nat, out: seq<int>, next: Vec, lo: Vec, hi: Vec)
    requires Merges(net) && Sorted(b) && Stream(a, b, i, j, out, next) && 4 * j + 4 <= |b|
    requires (4 * i < |a| ==> b[4 * j] <= a[4 * i]) && (lo, hi) == net(next, Load(b, j))
    ensures Stream(a, b, i, j + 1, out + lo.Keys(), hi)
  {
    StreamSwap(a, b, i, j, out, next);
    StreamStepA(net, b, a, j, i, out, next, lo, hi);
    StreamSwap(b, a, j + 1, i, out + lo.Keys(), hi);
  }

  /** All that the merge stores when `out` is stored and `next` is held back. */
  ghost function Total(net: Network, a: seq<int>, b: seq<int>, nA: nat, nB: nat, i: nat, j: nat, out: seq<int>,
                       next: Vec): seq<int>
    requires Blocked(a, b, nA, nB) && i <= nA && j <= nB
  {
    out + Rounds(net, a, b, nA, nB, i, j, next)
  }

  lemma NextA(net: Network, a: seq<int>, b: seq<int>, nA: nat, nB: nat, i: nat, j: nat, out: seq<int>, next: Vec,
              lo: Vec, hi: Vec)
    requires Blocked(a, b, nA, nB) && i <= nA && j <= nB && TakesA(a, b, nA, nB, i, j)
             && (lo, hi) == net(next, Load(a, i))
    ensures Total(net, a, b, nA, nB, i + 1, j, out + lo.Keys(), hi) == Total(net, a, b, nA, nB, i, j, out, next)
  {
    Reassociate(out, lo.Keys(), Rounds(net, a, b, nA, nB, i + 1, j, hi));
  }

  lemma NextB(net: Network, a: seq<int>, b: seq<int>, nA: nat, nB: nat, i: nat, j: nat, out: seq<int>, next: Vec,
              lo: Vec, hi: Vec)
    requires Blocked(a, b, nA, nB) && i <= nA && j <= nB && (i < nA || j < nB) && !TakesA(a, b, nA, nB, i, j)
    requires (lo, hi) == net(next, Load(b, j))
    ensures Total(net, a, b, nA, nB, i, j + 1, out + lo.Keys(), hi) == Total(net, a, b, nA, nB, i, j, out, next)
  {
    Reassociate(out, lo.Keys(), Rounds(net, a, b, nA, nB, i, j + 1, hi));
  }

  lemma NextEither(net: Network, a: seq<int>, b: seq<int>, nA: nat, nB: nat, i: nat, j: nat, out: seq<int>, next: Vec,
                   left: bool, lo: Vec, hi: Vec)
    requires Blocked(a, b, nA, nB) && i <= nA && j <= nB && (i < nA || j < nB) && left == TakesA(a, b, nA, nB, i, j)
    requires (lo, hi) == net(next, if left then Load(a, i) else Load(b, j))
    ensures Total(net, a, b, nA, nB, if left then i + 1 else i, if left then j else j + 1, out + lo.Keys(), hi)
         == Total(net, a, b, nA, nB, i, j, out, next)
  {
    if left {
      NextA(net, a, b, nA, nB, i, j, out, next, lo, hi);
    } else {
      NextB(net, a, b, nA, nB, i, j, out, next, lo, hi);
    }
  }

  lemma StreamSwap(a: seq<int>, b: seq<int>, i: nat, j: nat, out: seq<int>, next: Vec)
    requires Stream(a, b, i, j, out, next)
    ensures Stream(b, a, j, i, out, next)
  {
    Plus(multiset(a[..4 * i]), multiset(b[..4 * j]));
  }

  lemma Plus(x: multiset<int>, y: multiset<int>)
    ensures x + y == y + x
  {}

  lemma Reassociate(s: seq<int>, t: seq<int>, u: seq<int>)
    ensures s + (t + u) == (s + t) + u
  {}

  /** A round keeps the invariant. */
  lemma StreamStep(net: Network, a: seq<int>, b: seq<int>, nA: nat, nB: nat, i: nat, j: nat, out: seq<int>, next: Vec,
                   left: bool, lo: Vec, hi: Vec)
    requires Merges(net) && Sorted(a) && Sorted(b) && Blocked(a, b, nA, nB) && Stream(a, b, i, j, out, next)
    requires i <= nA && j <= nB && (i < nA || j < nB) && left == TakesA(a, b, nA, nB, i, j)
    requires (lo, hi) == net(next, if left then Load(a, i) else Load(b, j))
    ensures Stream(a, b, if left then i + 1 else i, if left then j else j + 1, out + lo.Keys(), hi)
  {
    if left {
      StreamStepA(net, a, b, i, j, out, next, lo, hi);
    } else {
      StreamStepB(net, a, b, i, j, out, next, lo, hi);
    }
  }

  lemma {:induction false} RoundsFinish(net: Network, a: seq<int>, b: seq<int>, nA: nat, nB: nat,
                                        i: nat, j: nat, out: seq<int>, next: Vec)
    requires Merges(net) && Sorted(a) && Sorted(b) && Blocked(a, b, nA, nB) && Stream(a, b, i, j, out, next)
    requires i <= nA && j <= nB
    ensures Total(net, a, b, nA, nB, i, j, out, next) == Merge(a, b)
    decreases nA + nB - i - j
  {
    if i >= nA && j >= nB {
      StreamEnd(a, b, i, j, out, next);
    } else {
      var left := TakesA(a, b, nA, nB, i, j);
      var (lo, hi) := net(next, if left then Load(a, i) else Load(b, j));
      StreamStep(net, a, b, nA, nB, i, j, out, next, left, lo, hi);
      NextEither(net, a, b, nA, nB, i, j, out, next, left, lo, hi);
      RoundsFinish(net, a, b, nA, nB, if left then i + 1 else i, if left then j else j + 1, out + lo.Keys(), hi);
    }
  }

  lemma StreamFromA(net: Network, a: seq<int>, b: seq<int>, nA: nat, nB: nat)
    requires Merges(net) && Sorted(a) && Sorted(b) && Blocked(a, b, nA, nB) && nA > 0
    ensures Rounds(net, a, b, nA, nB, 1, 0, Load(a, 0)) == Merge(a, b)
  {
    StreamStart(a, b);
    RoundsFinish(net, a, b, nA, nB, 1, 0, [], Load(a, 0));
  }

  lemma StreamFromB(net: Network, a: seq<int>, b: seq<int>, nA: nat, nB: nat)
    requires Merges(net) && Sorted(a) && Sorted(b) && Blocked(a, b, nA, nB) && nB > 0
    ensures Rounds(net, a, b, nA, nB, 0, 1, Load(b, 0)) == Merge(a, b)
  {
    StreamStart(b, a);
    StreamSwap(b, a, 1, 0, [], Load(b, 0));
    RoundsFinish(net, a, b, nA, nB, 0, 1, [], Load(b, 0));
  }

  lemma FirstLoad(s: seq<int>, behind: seq<int>, n: nat)
    requires n > 0 && 4 * n <= |s|
    ensures Load(WithBehind(s, behind), 0) == Load(s[..4 * n], 0)
  {}

  /** When the first block is a whole one the block merge is the merge of the blocks, over
      any 4-wide merge network, also when the other side has no block. */
  lemma BlocksMerge(net: Network, a: seq<int>, b: seq<int>, nA: nat, nB: nat, behindA: seq<int>, behindB: seq<int>)
    requires Merges(net) && Sorted(a) && Sorted(b) && a != [] && b != [] && 4 * nA <= |a| && 4 * nB <= |b|
    requires |behindA| == |behindB| == 3 && FirstIsWhole(a, b, nA, nB)
    ensures Blocks(net, a, b, nA, nB, behindA, behindB) == Merge(a[..4 * nA], b[..4 * nB])
  {
    var ba, bb := a[..4 * nA], b[..4 * nB];
    assert a[0..4 * nA] == ba && b[0..4 * nB] == bb;
    SortedPiece(a, 0, 4 * nA);
    SortedPiece(b, 0, 4 * nB);
    if a[0] < b[0] {
      FirstLoad(b, behindB, nB);
      StreamFromB(net, ba, bb, nA, nB);
    } else {
      FirstLoad(a, behindA, nA);
      StreamFromA(net, ba, bb, nA, nB);
    }
  }

  /** When it is not, and there is a block, the first four keys stored include any key
      found behind the short side that is smaller than all keys of the blocks. */
  lemma BehindComesFirst(a: seq<int>, b: seq<int>, nA: nat, nB: nat, behindA: seq<int>, behindB: seq<int>, v: int)
    requires a != [] && b != [] && 4 * nA <= |a| < 4 * nA + 4 && 4 * nB <= |b| < 4 * nB + 4 && nA + nB > 0
    requires behindA == [v, v, v] && behindB == [v, v, v] && (forall x :: x in a || x in b ==> v < x)
    requires !FirstIsWhole(a, b, nA, nB)
    ensures v in Blocks(BitonicMerge4, a, b, nA, nB, behindA, behindB)[..4]
  {
    var ba, bb := a[..4 * nA], b[..4 * nB];
    PieceLarger(a, 4 * nA, v);
    PieceLarger(b, 4 * nB, v);
    if a[0] < b[0] {
      ShortFirst(b, behindB, ba, nA, v);
      var p := BitonicMerge4(Load(WithBehind(b, behindB), 0), Load(ba, 0));
      assert TakesA(ba, bb, nA, nB, 0, 0);
      FirstFour(p.0, Rounds(BitonicMerge4, ba, bb, nA, nB, 1, 0, p.1));
    } else {
      ShortFirst(a, behindA, bb, nB, v);
      var p := BitonicMerge4(Load(WithBehind(a, behindA), 0), Load(bb, 0));
      assert !TakesA(ba, bb, nA, nB, 0, 0);
      FirstFour(p.0, Rounds(BitonicMerge4, ba, bb, nA, nB, 0, 1, p.1));
    }
  }

  lemma PieceLarger(s: seq<int>, n: nat, v: int)
    requires n <= |s| && forall x :: x in s ==> v < x
    ensures forall x :: x in s[..n] ==> v < x
  {
    forall x | x in s[..n] ensures v < x { assert x in s; }
  }

  lemma FirstFour(v: Vec, r: seq<int>)
    ensures (v.Keys() + r)[..4] == v.Keys()
  {}

  lemma ShortFirst(s: seq<int>, behind: seq<int>, blocks: seq<int>, n: nat, v: int)
    requires 0 < |s| < 4 && behind == [v, v, v] && n > 0 && |blocks| == 4 * n && forall x :: x in blocks ==> v < x
    ensures v in BitonicMerge4(Load(WithBehind(s, behind), 0), Load(blocks, 0)).0.Keys()
  {
    var x, y := Load(WithBehind(s, behind), 0), Load(blocks, 0);
    assert WithBehind(s, behind)[3] == v && x.Keys()[3] == v;
    assert blocks[0] in blocks && blocks[1] in blocks && blocks[2] in blocks && blocks[3] in blocks;
    LowStaysLow(x, y, v);
  }

  lemma BitonicMerges()
    ensures Merges(BitonicMerge4)
  {
    forall x: Vec, y: Vec | x.Ascending() && y.Ascending()
      ensures Pass(x, y, BitonicMerge4(x, y).0, BitonicMerge4(x, y).1)
    {
      NetworkPasses(x, y);
    }
  }
}
