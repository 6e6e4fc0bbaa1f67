/** The array code of the 4-wide merge of whole blocks: the first load, the stream loop
    and the last store. */
module SseUtils {
  import opened Arithmetic
  import opened SortedSeqs
  import opened SseMerge
  import opened MergeUtils

  method StoreBlock(dest: array<int>, ghost before: seq<int>, d: nat, ghost out: seq<int>, at: nat, v: Vec)
    requires d + |out| + 4 <= |before| && dest[..] == Overwritten(before, d, out) && at == d + |out|
    modifies dest
    ensures dest[..] == Overwritten(before, d, out + v.Keys())
  {
    dest[at], dest[at + 1], dest[at + 2], dest[at + 3] := v.v0, v.v1, v.v2, v.v3;
    ghost var s := Overwritten(before, d, out + v.Keys());
    forall k | 0 <= k < |before| ensures dest[k] == s[k] {
      assert Overwritten(before, d, out)[k] == if k < d then before[k] else if k < at then out[k - d] else before[k];
    }
  }

  ghost predicate Mirrors(a: array<int>, a0: nat, s: seq<int>)
    reads a
  {
    a0 + |s| <= a.Length && forall k :: 0 <= k < |s| ==> a[a0 + k] == s[k]
  }

  method LoadBlock(a: array<int>, a0: nat, ghost s: seq<int>, k: nat) returns (v: Vec)
    requires 4 * k + 4 <= |s| && Mirrors(a, a0, s)
    ensures v == Load(s, k)
  {
    var at := a0 + 4 * k;
    v := Vec(a[at], a[at + 1], a[at + 2], a[at + 3]);
    assert a[a0 + 4 * k] == s[4 * k] && a[a0 + (4 * k + 1)] == s[4 * k + 1];
    assert a[a0 + (4 * k + 2)] == s[4 * k + 2] && a[a0 + (4 * k + 3)] == s[4 * k + 3];
  }

  /** The choice of side in one round of the stream loop. */
  method ChooseA(a: array<int>, a0: nat, b: array<int>, b0: nat, nA: nat, nB: nat, crtA: nat, crtB: nat,
                 ghost sa: seq<int>, ghost sb: seq<int>)
    returns (left: bool)
    requires Blocked(sa, sb, nA, nB) && Mirrors(a, a0, sa) && Mirrors(b, b0, sb)
    ensures left == TakesA(sa, sb, nA, nB, crtA, crtB)
  {
    left := crtA < nA && (crtB >= nB || a[a0 + 4 * crtA] < b[b0 + 4 * crtB]);
  }

  /** Block k of `src` goes through the network with `next`. */
  method PassBlock(net: Network, src: array<int>, s0: nat, k: nat, next: Vec, ghost ss: seq<int>)
    returns (lo: Vec, hi: Vec)
    requires Mirrors(src, s0, ss) && 4 * k + 4 <= |ss|
    ensures (lo, hi) == net(next, Load(ss, k))
  {
    var x := LoadBlock(src, s0, ss, k);
    var p := net(next, x);
    lo, hi := p.0, p.1;
  }

  /** The block of one round, through the network with `next`. */
  method NextBlock(net: Network, a: array<int>, a0: nat, b: array<int>, b0: nat,
                   nA: nat, nB: nat, crtA: nat, crtB: nat, next: Vec, ghost sa: seq<int>, ghost sb: seq<int>)
    returns (left: bool, lo: Vec, hi: Vec)
    requires Blocked(sa, sb, nA, nB) && Mirrors(a, a0, sa) && Mirrors(b, b0, sb)
    requires crtA <= nA && crtB <= nB && (crtA < nA || crtB < nB)
    ensures left == TakesA(sa, sb, nA, nB, crtA, crtB)
    ensures (lo, hi) == net(next, if left then Load(sa, crtA) else Load(sb, crtB))
  {
    left := ChooseA(a, a0, b, b0, nA, nB, crtA, crtB, sa, sb);
    if left {
      lo, hi := PassBlock(net, a, a0, crtA, next, sa);
    } else {
      lo, hi := PassBlock(net, b, b0, crtB, next, sb);
    }
  }

  /** Takes one block and keeps what there is to store in all. */
  method Advance(net: Network, a: array<int>, a0: nat, b: array<int>, b0: nat,
                 nA: nat, nB: nat, crtA: nat, crtB: nat, next: Vec,
                 ghost sa: seq<int>, ghost sb: seq<int>, ghost out: seq<int>)
    returns (crtA': nat, crtB': nat, lo: Vec, hi: Vec)
    requires Blocked(sa, sb, nA, nB) && Mirrors(a, a0, sa) && Mirrors(b, b0, sb)
    requires crtA <= nA && crtB <= nB && (crtA < nA || crtB < nB)
    ensures crtA' <= nA && crtB' <= nB && crtA' + crtB' == crtA + crtB + 1
    ensures Total(net, sa, sb, nA, nB, crtA', crtB', out + lo.Keys(), hi) == Total(net, sa, sb, nA, nB, crtA, crtB,
        out, next)
  {
    var left;
    left, lo, hi := NextBlock(net, a, a0, b, b0, nA, nB, crtA, crtB, next, sa, sb);
    NextEither(net, sa, sb, nA, nB, crtA, crtB, out, next, left, lo, hi);
    crtA', crtB' := if left then crtA + 1 else crtA, if left then crtB else crtB + 1;
  }

  /** One round of the stream loop: it stores a block and keeps what there is to store in all. */
  method Round(net: Network, a: array<int>, a0: nat, b: array<int>, b0: nat, dest: array<int>, d: nat,
               nA: nat, nB: nat, crtA: nat, crtB: nat, nextVal: nat, next: Vec,
               ghost before: seq<int>, ghost sa: seq<int>, ghost sb: seq<int>, ghost out: seq<int>)
    returns (crtA': nat, crtB': nat, next': Vec, ghost out': seq<int>)
    requires dest != a && dest != b && Blocked(sa, sb, nA, nB) && Mirrors(a, a0, sa) && Mirrors(b, b0, sb)
    requires crtA <= nA && crtB <= nB && (crtA < nA || crtB < nB)
    requires |out| == 4 * nextVal && d + |out| + 4 <= |before| && dest[..] == Overwritten(before, d, out)
    modifies dest
    ensures crtA' <= nA && crtB' <= nB && crtA' + crtB' == crtA + crtB + 1
    ensures |out'| == 4 * nextVal + 4 && d + |out'| <= |before| && dest[..] == Overwritten(before, d, out')
    ensures Total(net, sa, sb, nA, nB, crtA', crtB', out', next') == Total(net, sa, sb, nA, nB, crtA, crtB, out, next)
  {
    var lo;
    crtA', crtB', lo, next' := Advance(net, a, a0, b, b0, nA, nB, crtA, crtB, next, sa, sb, out);
    out' := out + lo.Keys();
    StoreBlock(dest, before, d, out, d + 4 * nextVal, lo);
  }

  /** The stream loop, from a first block already in `next`. */
  method StreamBlocks(net: Network, a: array<int>, a0: nat, b: array<int>, b0: nat, dest: array<int>, d: nat,
                      nA: nat, nB: nat, i0: nat, j0: nat, next0: Vec,
                      ghost before: seq<int>, ghost sa: seq<int>, ghost sb: seq<int>)
    returns (next: Vec, nextVal: nat, ghost out: seq<int>)
    requires dest != a && dest != b && Blocked(sa, sb, nA, nB)
    requires Mirrors(a, a0, sa) && Mirrors(b, b0, sb) && d + |sa| + |sb| <= |before|
    requires i0 + j0 <= 1 && i0 <= nA && j0 <= nB && dest[..] == before
    modifies dest
    ensures nextVal + i0 + j0 == nA + nB && |out| == 4 * nextVal
    ensures out + next.Keys() == Rounds(net, sa, sb, nA, nB, i0, j0, next0)
    ensures d + |out| <= |before| && dest[..] == Overwritten(before, d, out)
  {
    var crtA: nat, crtB: nat := i0, j0;
    nextVal, next, out := 0, next0, [];
    assert before == Overwritten(before, d, []);
    while crtA < nA || crtB < nB
      invariant crtA <= nA && crtB <= nB && nextVal + i0 + j0 == crtA + crtB && |out| == 4 * nextVal
      invariant Total(net, sa, sb, nA, nB, crtA, crtB, out, next) == Rounds(net, sa, sb, nA, nB, i0, j0, next0)
      invariant d + |out| <= |before| && dest[..] == Overwritten(before, d, out)
      decreases nA + nB - crtA - crtB
    {
      crtA, crtB, next, out :=
        Round(net, a, a0, b, b0, dest, d, nA, nB, crtA, crtB, nextVal, next, before, sa, sb, out);
      nextVal := nextVal + 1;
    }
  }

  /** Key k of the 16 bytes at a0, `rest` of whose keys belong to the side. */
  function Lane(a: array<int>, a0: nat, rest: nat, behind: seq<int>, k: nat): int
    requires rest > 0 && k < 4 && |behind| == 3 && a0 + rest <= a.Length
    reads a
  {
    if k < rest then a[a0 + k] else behind[k - rest]
  }

  /** The load of the first block of a side: with fewer than four keys left it also
      loads what lies behind them. */
  method LoadFirst(a: array<int>, a0: nat, rest: nat, behind: seq<int>, ghost s: seq<int>) returns (v: Vec)
    requires rest == |s| > 0 && Mirrors(a, a0, s) && |behind| == 3
    ensures v == Load(WithBehind(s, behind), 0)
  {
    v := Vec(Lane(a, a0, rest, behind, 0), Lane(a, a0, rest, behind, 1),
             Lane(a, a0, rest, behind, 2), Lane(a, a0, rest, behind, 3));
  }

  /** The store of the last block: only `room` of its keys fall inside the destination. */
  method StoreLast(dest: array<int>, ghost before: seq<int>, d: nat, ghost out: seq<int>, at: nat, v: Vec, room: nat)
    returns (spill: seq<int>)
    requires room <= 4 && d + |out| + room <= |before| && dest[..] == Overwritten(before, d, out) && at == d + |out|
    modifies dest
    ensures dest[..] == Overwritten(before, d, out + v.Keys()[..room]) && spill == v.Keys()[room..]
  {
    assert v.Keys()[..0] == [] && out + [] == out;
    if room > 0 { OneMoreKey(before, d, out, v.Keys(), 0); dest[at] := v.v0; }
    if room > 1 { OneMoreKey(before, d, out, v.Keys(), 1); dest[at + 1] := v.v1; }
    if room > 2 { OneMoreKey(before, d, out, v.Keys(), 2); dest[at + 2] := v.v2; }
    if room > 3 { OneMoreKey(before, d, out, v.Keys(), 3); dest[at + 3] := v.v3; }
    spill := v.Keys()[room..];
  }

  lemma OneMoreKey(before: seq<int>, d: nat, out: seq<int>, keys: seq<int>, k: nat)
    requires k < |keys| && d + |out| + k + 1 <= |before|
    ensures Overwritten(before, d, out + keys[..k])[d + |out| + k := keys[k]] == Overwritten(before, d,
        out + keys[..k + 1])
  {}

  lemma LastRoom(out: seq<int>, keys: seq<int>, r: seq<int>, room: nat, k: nat)
    requires room <= |keys| && r == out + keys && k == |out| + room
    ensures out + keys[..room] == r[..k] && keys[room..] == r[k..]
  {}

  lemma MirrorPrefix(a: array<int>, a0: nat, s: seq<int>, n: nat)
    requires Mirrors(a, a0, s) && n <= |s|
    ensures Mirrors(a, a0, s[..n])
  {}

  /** Merges the nA whole blocks among the `restA` keys at a0 with the nB ones among the
      `restB` keys at b0, by any 4-wide network. `behindA` and `behindB` are what memory holds
      behind the sides; the keys that the last store puts behind the destination's own
      restA + restB are returned. */
  method SseMergeAligned32bit(net: Network, a: array<int>, a0: nat, b: array<int>, b0: nat, dest: array<int>, d: nat,
                              restA: nat, restB: nat, nA: nat, nB: nat, behindA: seq<int>, behindB: seq<int>,
                              ghost ra: seq<int>, ghost rb: seq<int>)
    returns (spill: seq<int>)
    requires dest != a && dest != b && Mirrors(a, a0, ra) && Mirrors(b, b0, rb)
    requires restA == |ra| > 0 && restB == |rb| > 0 && 4 * nA <= restA && 4 * nB <= restB
    requires |behindA| == |behindB| == 3 && d + restA + restB <= dest.Length
    modifies dest
    ensures var r := Blocks(net, ra, rb, nA, nB, behindA, behindB);
            var k := Min(|r|, restA + restB);
            dest[..] == Overwritten(old(dest[..]), d, r[..k]) && spill == r[k..]
  {
    ghost var before, ba, bb, out := dest[..], ra[..4 * nA], rb[..4 * nB], [];
    MirrorPrefix(a, a0, ra, 4 * nA);
    MirrorPrefix(b, b0, rb, 4 * nB);
    var crtA, crtB, nextVal := 0, 0, 0;
    var next;
    if a[a0] < b[b0] {
      next := LoadFirst(b, b0, restB, behindB, rb);
      crtB := if nB > 0 then 1 else 0;
    } else {
      next := LoadFirst(a, a0, restA, behindA, ra);
      crtA := if nA > 0 then 1 else 0;
    }
    next, nextVal, out := StreamBlocks(net, a, a0, b, b0, dest, d, nA, nB, crtA, crtB, next, before, ba, bb);
    ghost var r := Blocks(net, ra, rb, nA, nB, behindA, behindB);
    assert ra[0] == a[a0] && rb[0] == b[b0] && r == out + next.Keys();
    var room := Min(4, restA + restB - 4 * nextVal);
    LastRoom(out, next.Keys(), r, room, Min(|r|, restA + restB));
    spill := StoreLast(dest, before, d, out, d + 4 * nextVal, next, room);
  }
}
