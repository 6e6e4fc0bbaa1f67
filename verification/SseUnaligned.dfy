/** The array code of the unaligned SSE merge: keys are merged one by one until the three
    cursors are aligned, then whole blocks are streamed, and the up to three keys left on a
    side are bubbled into place. */
module SseUnaligned {
  import opened Arithmetic
  import opened SortedSeqs
  import opened MergeUtils
  import opened SseMerge
  import opened SseUtils
  import opened SseOutcome

  /** One key of the prefix loop. */
  method PrefixStep(a: array<int>, a0: nat, b: array<int>, b0: nat, dest: array<int>, d: nat, i: nat, j: nat,
                    ghost aligned: Alignment, ghost before: seq<int>, ghost sa: seq<int>, ghost sb: seq<int>,
                        ghost m: seq<int>)
    returns (i': nat, j': nat)
    requires dest != a && dest != b && Holds(a, a0, |sa|, sa) && Holds(b, b0, |sb|, sb)
    requires Cursors(sa, sb, m, i, j) && i < |sa| && j < |sb| && !aligned(i, j, i + j)
    requires d + |m| <= |before| && dest[..] == Stored(before, d, m, i + j)
    modifies dest
    ensures i' + j' == i + j + 1 && i' <= |sa| && j' <= |sb|
    ensures AlignPoint(sa, sb, aligned, i', j') == AlignPoint(sa, sb, aligned, i, j)
    ensures Cursors(sa, sb, m, i', j') && dest[..] == Stored(before, d, m, i' + j')
  {
    AlignNext(sa, sb, aligned, i, j);
    i', j' := MergeStep(a, a0, b, b0, dest, before, d, i, j, sa, sb, m);
  }

  method MergePrefix(a: array<int>, a0: nat, b: array<int>, b0: nat, dest: array<int>, d: nat, numA: nat, numB: nat,
                     aligned: Alignment, ghost before: seq<int>, ghost sa: seq<int>, ghost sb: seq<int>,
                         ghost m: seq<int>)
    returns (i: nat, j: nat)
    requires dest != a && dest != b && Holds(a, a0, numA, sa) && Holds(b, b0, numB, sb)
    requires m == Merge(sa, sb) && d + |m| <= |before| && dest[..] == before
    modifies dest
    ensures Cursors(sa, sb, m, i, j) && (i, j) == AlignPoint(sa, sb, aligned, 0, 0)
    ensures i == numA || j == numB || aligned(i, j, i + j)
    ensures dest[..] == Stored(before, d, m, i + j)
  {
    var k: nat := 0;
    i, j := 0, 0;
    CursorsStart(sa, sb, m, before, d);
    while !aligned(i, j, k) && i < numA && j < numB
      invariant k == i + j && Cursors(sa, sb, m, i, j)
      invariant AlignPoint(sa, sb, aligned, i, j) == AlignPoint(sa, sb, aligned, 0, 0)
      invariant dest[..] == Stored(before, d, m, k)
      decreases numA + numB - i - j
    {
      i, j := PrefixStep(a, a0, b, b0, dest, d, i, j, aligned, before, sa, sb, m);
      k := k + 1;
    }
  }

  // ------------------------------------------------------------ bubbled tails

  lemma SwapDown(before: seq<int>, d: nat, run: seq<int>, x: int, e: nat)
    requires 0 < e <= |run| && d + |run| + 1 <= |before|
    ensures var s := Overwritten(before, d, Inserted(run, x, e));
            && s[d + e] == x && s[d + e - 1] == run[e - 1]
            && s[d + e - 1 := x][d + e := run[e - 1]] == Overwritten(before, d, Inserted(run, x, e - 1))
  {
    var s, t := Overwritten(before, d, Inserted(run, x, e)), Overwritten(before, d, Inserted(run, x, e - 1));
    forall k | 0 <= k < |before| ensures s[d + e - 1 := x][d + e := run[e - 1]][k] == t[k] {}
  }

  /** The key in front of index `element`: that of the destination, or whatever lies in front of it. */
  function InFront(dest: array<int>, d: nat, element: nat, under: int): int
    requires d + element <= dest.Length
    reads dest
  {
    if element > 0 then dest[d + element - 1] else under
  }

  lemma KeyAt(before: seq<int>, d: nat, run: seq<int>, x: int, e: nat)
    requires e <= |run| && d + |run| + 1 <= |before|
    ensures Overwritten(before, d, Inserted(run, x, e))[d + e] == x
    ensures e > 0 ==> Overwritten(before, d, Inserted(run, x, e))[d + e - 1] == run[e - 1]
  {}

  /** One leftover key: it is stored behind the run and swapped down. `front` says whether
      the loop has compared it with what lies in front of the destination. */
  method BubbleDown(dest: array<int>, d: nat, k: nat, key: int, under: int, ghost before: seq<int>, ghost run: seq<int>)
    returns (front: bool)
    requires k == |run| && d + k + 1 <= |before| && dest[..] == Overwritten(before, d, run)
    modifies dest
    ensures dest[..] == Overwritten(before, d, InsertBack(run, key)) && front == AllLarger(run, key)
  {
    dest[d + k] := key;
    var element: nat := k;
    assert dest[..] == Overwritten(before, d, Inserted(run, key, k));
    while dest[d + element] < InFront(dest, d, element, under) && element > 0
      invariant element <= k && forall t :: element <= t < k ==> key < run[t]
      invariant dest[..] == Overwritten(before, d, Inserted(run, key, element))
      decreases element
    {
      KeyAt(before, d, run, key, element);
      SwapDown(before, d, run, key, element);
      var temp := dest[d + element - 1];
      dest[d + element - 1] := dest[d + element];
      dest[d + element] := temp;
      element := element - 1;
    }
    KeyAt(before, d, run, key, element);
    InsertedIs(run, key, element);
    front := element == 0;
    assert element > 0 ==> run[element - 1] in run;
  }

  lemma TailStep(run: seq<int>, ss: seq<int>, c: nat)
    requires c < |ss|
    ensures InsertAll(run, ss[c..]) == InsertAll(InsertBack(run, ss[c]), ss[c + 1..])
    ensures Front(run, ss[c..]) <==> AllLarger(run, ss[c]) || Front(InsertBack(run, ss[c]), ss[c + 1..])
  {
    assert ss[c..][1..] == ss[c + 1..];
  }

  /** The tail loop of one side: its keys from `from` on join the run. */
  method BubbleRest(src: array<int>, s0: nat, from: nat, num: nat, dest: array<int>, d: nat, k: nat, under: int,
                    ghost before: seq<int>, ghost ss: seq<int>, ghost run: seq<int>)
    returns (front: bool)
    requires src != dest && num == |ss| && Holds(src, s0, num, ss) && from <= num
    requires k == |run| && d + k + num - from <= |before| && dest[..] == Overwritten(before, d, run)
    modifies dest
    ensures dest[..] == Overwritten(before, d, InsertAll(run, ss[from..])) && front == Front(run, ss[from..])
  {
    var counter: nat, k': nat := from, k;
    ghost var run' := run;
    front := false;
    while counter < num
      invariant from <= counter <= num && k' == |run'| == k + counter - from
      invariant InsertAll(run', ss[counter..]) == InsertAll(run, ss[from..])
      invariant (front || Front(run', ss[counter..])) == Front(run, ss[from..])
      invariant d + |run'| <= |before| && dest[..] == Overwritten(before, d, run')
    {
      TailStep(run', ss, counter);
      var f := BubbleDown(dest, d, k', src[s0 + counter], under, before, run');
      run' := InsertBack(run', ss[counter]);
      front := front || f;
      counter, k' := counter + 1, k' + 1;
    }
  }

  // ------------------------------------------------------------- the whole merge

  lemma MirrorRest(src: array<int>, s0: nat, ss: seq<int>, i: nat)
    requires Holds(src, s0, |ss|, ss) && i < |ss|
    ensures Mirrors(src, s0 + i, ss[i..])
  {
    var start, rest, last := s0 + i, ss[i..], |ss| - 1;
    assert ss[last] == rest[last - i];
    forall k | 0 <= k < |rest| ensures start + k < src.Length && src[start + k] == rest[k] {
      var p := i + k;
      assert ss[p] == rest[k];
    }
  }

  /** The part of `stored` that falls into a destination of n keys. */
  lemma StoredInside(before: seq<int>, d: nat, prefix: seq<int>, blocks: seq<int>, k: nat, n: nat, mid: seq<int>)
    requires |prefix| <= n && d + n <= |before| && k <= |blocks| && k == Min(|blocks|, n - |prefix|)
    requires mid == Overwritten(Overwritten(before, d, prefix), d + |prefix|, blocks[..k])
    ensures mid == Overwritten(before, d, (prefix + blocks)[..|prefix| + k])
  {}

  lemma SpillIs(prefix: seq<int>, blocks: seq<int>, k: nat, n: nat)
    requires |prefix| <= n && k == Min(|blocks|, n - |prefix|)
    ensures blocks[k..] == if |prefix + blocks| <= n then [] else (prefix + blocks)[n..]
  {}

  /** What the block merge leaves behind a stored prefix. */
  lemma BehindPrefix(before: seq<int>, d: nat, prefix: seq<int>, blocks: seq<int>, k: nat, n: nat, mid: seq<int>,
                     stored: seq<int>, c: nat)
    requires |prefix| <= n && d + n <= |before| && k == Min(|blocks|, n - |prefix|)
    requires mid == Overwritten(Overwritten(before, d, prefix), d + |prefix|, blocks[..k])
    requires stored == prefix + blocks && c == |prefix| + k
    ensures c <= |stored| && c == Min(|stored|, n) && mid == Overwritten(before, d, stored[..c])
    ensures blocks[k..] == if |stored| <= n then [] else stored[n..]
  {
    StoredInside(before, d, prefix, blocks, k, n, mid);
    SpillIs(prefix, blocks, k, n);
  }

  /** The tail loops store over whatever lies behind the run. */
  lemma OverTheRest(before: seq<int>, d: nat, stored: seq<int>, c: nat, r: nat, mid: seq<int>)
    requires r <= c <= |stored| && d + c <= |before| && mid == Overwritten(before, d, stored[..c])
    ensures mid == Overwritten(mid, d, stored[..r])
  {}

  lemma WholeOver(before: seq<int>, d: nat, s: seq<int>, mid: seq<int>, keys: seq<int>)
    requires d + |keys| <= |before| && |s| <= |keys| && mid == Overwritten(before, d, s)
    ensures Overwritten(mid, d, keys) == Overwritten(before, d, keys)
  {}

  /** The block merge behind a stored prefix. */
  method StreamBehind(a: array<int>, a0: nat, b: array<int>, b0: nat, dest: array<int>, d: nat, i: nat, j: nat,
                      restA: nat, restB: nat, nA: nat, nB: nat, behindA: seq<int>, behindB: seq<int>,
                      ghost before: seq<int>, ghost prefix: seq<int>, ghost ra: seq<int>, ghost rb: seq<int>)
    returns (spill: seq<int>, ghost stored: seq<int>, ghost c: nat)
    requires dest != a && dest != b && Mirrors(a, a0 + i, ra) && Mirrors(b, b0 + j, rb)
    requires restA == |ra| > 0 && restB == |rb| > 0 && 4 * nA <= restA && 4 * nB <= restB
    requires |behindA| == |behindB| == 3 && |prefix| == i + j && d + i + j + restA + restB <= |before|
    requires dest[..] == Overwritten(before, d, prefix)
    modifies dest
    ensures stored == prefix + Blocks(BitonicMerge4, ra, rb, nA, nB, behindA, behindB)
    ensures c <= |stored| && c == Min(|stored|, i + j + restA + restB)
            && dest[..] == Overwritten(before, d, stored[..c])
    ensures spill == if |stored| <= i + j + restA + restB then [] else stored[i + j + restA + restB..]
  {
    spill := SseMergeAligned32bit(BitonicMerge4, a, a0 + i, b, b0 + j, dest, d + i + j, restA, restB, nA, nB,
                                  behindA, behindB, ra, rb);
    ghost var blocks := Blocks(BitonicMerge4, ra, rb, nA, nB, behindA, behindB);
    ghost var k := Min(|blocks|, restA + restB);
    stored, c := prefix + blocks, i + j + k;
    BehindPrefix(before, d, prefix, blocks, k, i + j + restA + restB, dest[..], stored, c);
  }

  /** Both tail loops, from the end of the whole blocks on. */
  method MergeTails(a: array<int>, a0: nat, b: array<int>, b0: nat, dest: array<int>, d: nat, numA: nat, numB: nat,
                    p: nat, q: nat, under: int,
                    ghost before: seq<int>, ghost sa: seq<int>, ghost sb: seq<int>, ghost stored: seq<int>,
                        ghost c: nat)
    returns (front: bool)
    requires dest != a && dest != b && numA == |sa| && numB == |sb| && Holds(a, a0, numA, sa) && Holds(b, b0, numB, sb)
    requires p <= numA && q <= numB && p + q <= c <= |stored| && c <= numA + numB
    requires d + numA + numB <= |before| && dest[..] == Overwritten(before, d, stored[..c])
    modifies dest
    ensures dest[..] == Overwritten(before, d, Tails(sa, sb, stored, p, q).keys)
    ensures front == TailsFront(sa, sb, p, q, stored[..p + q])
  {
    ghost var mid, run := dest[..], stored[..p + q];
    OverTheRest(before, d, stored, c, p + q, mid);
    front := BubbleRest(a, a0, p, numA, dest, d, p + q, under, mid, sa, run);
    ghost var run' := InsertAll(run, sa[p..]);
    var front' := BubbleRest(b, b0, q, numB, dest, d, numA + q, under, mid, sb, run');
    front := front || front';
    WholeOver(before, d, stored[..c], mid, InsertAll(run', sb[q..]));
  }

  /** All that follows the aligning prefix when both sides have keys left. */
  method MergeAfterPrefix(a: array<int>, a0: nat, b: array<int>, b0: nat, dest: array<int>, d: nat,
                          numA: nat, numB: nat, i: nat, j: nat, behindA: seq<int>, behindB: seq<int>, under: int,
                          ghost before: seq<int>, ghost sa: seq<int>, ghost sb: seq<int>, ghost m: seq<int>)
    returns (spill: seq<int>, front: bool, ghost stored: seq<int>, p: nat, q: nat)
    requires dest != a && dest != b && numA == |sa| && numB == |sb| && Holds(a, a0, numA, sa) && Holds(b, b0, numB, sb)
    requires i < numA && j < numB && |behindA| == |behindB| == 3 && m == Merge(sa, sb)
    requires d + |m| <= |before| && dest[..] == Stored(before, d, m, i + j)
    modifies dest
    ensures stored == StoredBefore(sa, sb, i, j, behindA, behindB)
    ensures p == i + 4 * Whole(|sa| - i) && q == j + 4 * Whole(|sb| - j)
    ensures dest[..] == Overwritten(before, d, Tails(sa, sb, stored, p, q).keys)
    ensures spill == Tails(sa, sb, stored, p, q).spill && front == TailsFront(sa, sb, p, q, stored[..p + q])
  {
    var nA, nB := Whole(numA - i), Whole(numB - j);
    MirrorRest(a, a0, sa, i);
    MirrorRest(b, b0, sb, j);
    ghost var c;
    spill, stored, c := StreamBehind(a, a0, b, b0, dest, d, i, j, numA - i, numB - j, nA, nB, behindA, behindB,
                                     before, m[..i + j], sa[i..], sb[j..]);
    StoredIs(sa, sb, m, i, j, nA, nB, behindA, behindB, stored);
    p, q := i + 4 * nA, j + 4 * nB;
    front := MergeTails(a, a0, b, b0, dest, d, numA, numB, p, q, under, before, sa, sb, stored, c);
  }

  /** The merge of two sides that hold `sa` and `sb`. */
  method MergeSides(a: array<int>, a0: nat, b: array<int>, b0: nat, dest: array<int>, d: nat, numA: nat, numB: nat,
                    aligned: Alignment, behindA: seq<int>, behindB: seq<int>, under: int,
                    ghost before: seq<int>, ghost sa: seq<int>, ghost sb: seq<int>, ghost m: seq<int>)
    returns (spill: seq<int>, front: bool)
    requires dest != a && dest != b && numA == |sa| && numB == |sb| && Holds(a, a0, numA, sa) && Holds(b, b0, numB, sb)
    requires m == Merge(sa, sb) && d + |m| <= |before| && dest[..] == before && |behindA| == |behindB| == 3
    modifies dest
    ensures var r := UnalignedMerge(sa, sb, aligned, behindA, behindB);
            dest[..] == Overwritten(before, d, r.keys) && spill == r.spill
    ensures front == LooksInFront(sa, sb, aligned, behindA, behindB)
  {
    var i, j := MergePrefix(a, a0, b, b0, dest, d, numA, numB, aligned, before, sa, sb, m);
    if i == numA || j == numB {
      CopySides(a, a0, b, b0, dest, d, numA, numB, i, j, before, sa, sb, m);
      spill, front := [], false;
    } else {
      ghost var stored;
      var p, q;
      spill, front, stored, p, q :=
        MergeAfterPrefix(a, a0, b, b0, dest, d, numA, numB, i, j, behindA, behindB, under, before, sa, sb, m);
      UnalignedIs(sa, sb, aligned, behindA, behindB, i, j, stored, p, q);
    }
  }

  /** The two copy loops, one of which has nothing to do. */
  method CopySides(a: array<int>, a0: nat, b: array<int>, b0: nat, dest: array<int>, d: nat, numA: nat, numB: nat,
                   i: nat, j: nat, ghost before: seq<int>, ghost sa: seq<int>, ghost sb: seq<int>, ghost m: seq<int>)
    requires dest != a && dest != b && numA == |sa| && numB == |sb| && Holds(a, a0, numA, sa) && Holds(b, b0, numB, sb)
    requires m == Merge(sa, sb) && Cursors(sa, sb, m, i, j) && (i == numA || j == numB)
    requires d + |m| <= |before| && dest[..] == Stored(before, d, m, i + j)
    modifies dest
    ensures dest[..] == Overwritten(before, d, m)
  {
    OneSideLeft(sa, sb, m, i, j);
    StoredAll(before, d, m);
    if i < numA {
      CopyRest(a, a0, i, numA, sa, dest, before, d, m, i + j);
    } else {
      CopyRest(b, b0, j, numB, sb, dest, before, d, m, i + j);
    }
  }

  /** `aligned` says at which cursors (i, j, k) all three pointers are on a 16-byte
      boundary, `behindA` and `behindB` what memory holds behind the sides, and `under` what it
      holds in front of the destination. */
  method MergeArraysUnalignedSse(a: array<int>, a0: nat, b: array<int>, b0: nat, dest: array<int>, d: nat,
                                 numA: nat, numB: nat, aligned: Alignment,
                                 behindA: seq<int>, behindB: seq<int>, under: int)
    returns (spill: seq<int>, front: bool)
    requires dest != a && dest != b && a0 + numA <= a.Length && b0 + numB <= b.Length
    requires d + numA + numB <= dest.Length && |behindA| == |behindB| == 3
    modifies dest
    ensures var r := UnalignedMerge(old(a[a0..a0 + numA]), old(b[b0..b0 + numB]), aligned, behindA, behindB);
            dest[..] == Overwritten(old(dest[..]), d, r.keys) && spill == r.spill
    ensures front == LooksInFront(old(a[a0..a0 + numA]), old(b[b0..b0 + numB]), aligned, behindA, behindB)
  {
    ghost var sa, sb := a[a0..a0 + numA], b[b0..b0 + numB];
    spill, front := MergeSides(a, a0, b, b0, dest, d, numA, numB, aligned, behindA, behindB, under,
                               dest[..], sa, sb, Merge(sa, sb));
  }
}
