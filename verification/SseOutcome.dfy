/** The unaligned SSE merge as a function of its inputs, of the places where the pointers
    are aligned and of what memory holds behind the two sides; and when it is a merge. */
module SseOutcome {
  import opened SortedSeqs
  import opened MergeUtils
  import opened SseMerge

  /** At which cursors all three pointers are on a 16-byte boundary. */
  type Alignment = (nat, nat, nat) -> bool

  /** Where the aligning prefix stops: at an aligned position or at the end of a side. */
  ghost function AlignPoint(a: seq<int>, b: seq<int>, aligned: Alignment, i: nat, j: nat): (p: (nat, nat))
    requires i <= |a| && j <= |b|
    ensures p.0 <= |a| && p.1 <= |b|
    decreases |a| + |b| - i - j
  {
    if aligned(i, j, i + j) || i == |a| || j == |b| then (i, j)
    else if a[i] < b[j] then AlignPoint(a, b, aligned, i + 1, j)
    else AlignPoint(a, b, aligned, i, j + 1)
  }

  lemma AlignNext(a: seq<int>, b: seq<int>, aligned: Alignment, i: nat, j: nat)
    requires i < |a| && j < |b| && !aligned(i, j, i + j)
    ensures AlignPoint(a, b, aligned, i, j)
         == (if a[i] < b[j] then AlignPoint(a, b, aligned, i + 1, j) else AlignPoint(a, b, aligned, i, j + 1))
  {}

  lemma {:induction false} AlignCursors(a: seq<int>, b: seq<int>, m: seq<int>, aligned: Alignment, i: nat, j: nat)
    requires Cursors(a, b, m, i, j)
    ensures var p := AlignPoint(a, b, aligned, i, j); Cursors(a, b, m, p.0, p.1)
    decreases |a| + |b| - i - j
  {
    if !aligned(i, j, i + j) && i < |a| && j < |b| {
      if a[i] < b[j] {
        CursorsLeft(a, b, m, i, j);
        AlignCursors(a, b, m, aligned, i + 1, j);
      } else {
        CursorsRight(a, b, m, i, j);
        AlignCursors(a, b, m, aligned, i, j + 1);
      }
    }
  }

  /** Cursors of the prefix loop: of two equal keys that of `b` goes first. */
  ghost predicate OnPath(a: seq<int>, b: seq<int>, i: nat, j: nat) {
    && i <= |a| && j <= |b| && (i > 0 && j < |b| ==> a[i - 1] < b[j]) && (j > 0 && i < |a| ==> b[j - 1] <= a[i])
  }

  lemma OnePerRank(a: seq<int>, b: seq<int>, i: nat, j: nat, x: nat, y: nat)
    requires Sorted(a) && Sorted(b) && OnPath(a, b, i, j) && OnPath(a, b, x, y) && i + j == x + y
    ensures i == x && j == y
  {
    assert Ordered(b, y, j - 1) && Ordered(a, i, x - 1);
    assert Ordered(b, j, y - 1) && Ordered(a, x, i - 1);
  }

  lemma PathGoesOn(a: seq<int>, b: seq<int>, i: nat, j: nat)
    requires Sorted(a) && Sorted(b) && OnPath(a, b, i, j) && i < |a| && j < |b|
    ensures a[i] < b[j] ==> OnPath(a, b, i + 1, j)
    ensures a[i] >= b[j] ==> OnPath(a, b, i, j + 1)
  {
    if i + 1 < |a| { assert Ordered(a, i, i + 1); }
    if j + 1 < |b| { assert Ordered(b, j, j + 1); }
  }

  /** The prefix goes on exactly up to the first cursors at which everything is aligned, or to the end of
      a side. */
  lemma {:induction false} PrefixIsFirst(a: seq<int>, b: seq<int>, aligned: Alignment, i: nat, j: nat)
    requires Sorted(a) && Sorted(b) && OnPath(a, b, i, j)
    ensures var (p, q) := AlignPoint(a, b, aligned, i, j);
            && OnPath(a, b, p, q) && i + j <= p + q && (p == |a| || q == |b| || aligned(p, q, p + q))
            && forall x: nat, y: nat :: OnPath(a, b, x, y) && i + j <= x + y < p + q ==> !aligned(x, y, x + y)
    decreases |a| + |b| - i - j
  {
    if !aligned(i, j, i + j) && i < |a| && j < |b| {
      PathGoesOn(a, b, i, j);
      if a[i] < b[j] {
        PrefixIsFirst(a, b, aligned, i + 1, j);
      } else {
        PrefixIsFirst(a, b, aligned, i, j + 1);
      }
      var (p, q) := AlignPoint(a, b, aligned, i, j);
      forall x: nat, y: nat | OnPath(a, b, x, y) && i + j <= x + y < p + q ensures !aligned(x, y, x + y) {
        if x + y == i + j { OnePerRank(a, b, i, j, x, y); }
      }
    }
  }

  // ------------------------------------------------------------------ tail loops

  /** A key swapped down from the end of a run, past every larger key up to the first
      that is not. */
  function InsertBack(run: seq<int>, x: int): (r: seq<int>)
    ensures |r| == |run| + 1
  {
    if run == [] || run[|run| - 1] <= x then run + [x] else InsertBack(run[..|run| - 1], x) + [run[|run| - 1]]
  }

  lemma {:induction false} InsertBackKeys(run: seq<int>, x: int)
    ensures multiset(InsertBack(run, x)) == multiset(run) + multiset{x}
  {
    var n := |run| - 1;
    if run != [] && x < run[n] {
      InsertBackKeys(run[..n], x);
      assert run == run[..n] + [run[n]];
    }
  }

  lemma InsertBackMember(run: seq<int>, x: int, y: int)
    ensures y in InsertBack(run, x) <==> y in run || y == x
  {
    InsertBackKeys(run, x);
    assert y in InsertBack(run, x) <==> y in multiset(InsertBack(run, x));
  }

  lemma {:induction false} InsertBackSorted(run: seq<int>, x: int)
    requires Sorted(run)
    ensures Sorted(InsertBack(run, x))
  {
    var n := |run| - 1;
    if run == [] || run[n] <= x {
      LastIsTop(run, x);
      SortedConcat(run, [x]);
    } else {
      var init := run[..n];
      assert run[0..n] == init;
      SortedPiece(run, 0, n);
      InsertBackSorted(init, x);
      InsertBackBelow(run, init, x, n);
      SortedConcat(InsertBack(init, x), [run[n]]);
    }
  }

  lemma InsertBackBelow(run: seq<int>, init: seq<int>, x: int, n: nat)
    requires Sorted(run) && |run| == n + 1 && init == run[..n] && x < run[n]
    ensures forall y :: y in InsertBack(init, x) ==> y <= run[n]
  {
    LastIsTop(run, run[n]);
    forall y | y in InsertBack(init, x) ensures y <= run[n] {
      InsertBackMember(init, x, y);
      assert y in init ==> y in run;
    }
  }

  /** `run` with x put before index e. */
  function Inserted(run: seq<int>, x: int, e: nat): (r: seq<int>)
    requires e <= |run|
    ensures |r| == |run| + 1
  {
    run[..e] + [x] + run[e..]
  }

  lemma {:induction false} InsertedIs(run: seq<int>, x: int, e: nat)
    requires e <= |run| && (e > 0 ==> run[e - 1] <= x) && forall t :: e <= t < |run| ==> x < run[t]
    ensures InsertBack(run, x) == Inserted(run, x, e)
  {
    var n := |run| - 1;
    if e <= n {
      var init := run[..n];
      InsertedIs(init, x, e);
      InsertedLonger(run, init, x, e, n);
    }
  }

  lemma InsertedLonger(run: seq<int>, init: seq<int>, x: int, e: nat, n: nat)
    requires |run| == n + 1 && init == run[..n] && e <= n
    ensures Inserted(run, x, e) == Inserted(init, x, e) + [run[n]]
  {}

  /** A tail loop: the keys of a side that are left, one after the other. */
  function InsertAll(run: seq<int>, keys: seq<int>): (r: seq<int>)
    ensures |r| == |run| + |keys|
    decreases keys
  {
    if keys == [] then run else InsertAll(InsertBack(run, keys[0]), keys[1..])
  }

  lemma {:induction false} InsertAllKeys(run: seq<int>, keys: seq<int>)
    ensures multiset(InsertAll(run, keys)) == multiset(run) + multiset(keys)
    decreases keys
  {
    if keys != [] {
      InsertBackKeys(run, keys[0]);
      InsertAllKeys(InsertBack(run, keys[0]), keys[1..]);
      assert keys == [keys[0]] + keys[1..];
    }
  }

  lemma InsertAllKeeps(run: seq<int>, keys: seq<int>, y: int)
    requires y in run
    ensures y in InsertAll(run, keys)
  {
    InsertAllKeys(run, keys);
    assert y in multiset(InsertAll(run, keys));
  }

  lemma {:induction false} InsertAllSorted(run: seq<int>, keys: seq<int>)
    requires Sorted(run)
    ensures Sorted(InsertAll(run, keys))
    decreases keys
  {
    if keys != [] {
      InsertBackSorted(run, keys[0]);
      InsertAllSorted(InsertBack(run, keys[0]), keys[1..]);
    }
  }

  ghost predicate AllLarger(run: seq<int>, x: int) { forall y :: y in run ==> x < y }

  /** Some key of a tail loop is swapped down to index 0, where the loop compares it with
      what lies in front of the destination. */
  ghost predicate Front(run: seq<int>, keys: seq<int>)
    decreases keys
  {
    keys != [] && (AllLarger(run, keys[0]) || Front(InsertBack(run, keys[0]), keys[1..]))
  }

  lemma {:induction false} NotFront(run: seq<int>, keys: seq<int>, y: int)
    requires y in run && forall x :: x in keys ==> y <= x
    ensures !Front(run, keys)
    decreases keys
  {
    if keys != [] {
      InsertBackMember(run, keys[0], y);
      assert keys[0] in keys;
      forall x | x in keys[1..] ensures y <= x { assert x in keys; }
      NotFront(InsertBack(run, keys[0]), keys[1..], y);
    }
  }

  // --------------------------------------------------------------------- outcome

  /** What the merge leaves in the destination, and what it stores behind it. */
  datatype Stores = Stores(keys: seq<int>, spill: seq<int>)

  /** The tail loops store from the end of the whole blocks on, over anything behind them. */
  ghost function Tails(a: seq<int>, b: seq<int>, stored: seq<int>, p: nat, q: nat): (r: Stores)
    requires p <= |a| && q <= |b| && p + q <= |stored|
    ensures |r.keys| == |a| + |b|
  {
    Stores(InsertAll(InsertAll(stored[..p + q], a[p..]), b[q..]),
           if |stored| <= |a| + |b| then [] else stored[|a| + |b|..])
  }

  /** `size & ~3`, in blocks. */
  function Whole(size: nat): (n: nat)
    ensures 4 * n <= size < 4 * n + 4
  {
    size / 4
  }

  /** What has been stored when the tail loops start: a prefix of the merge, then the blocks. */
  ghost function StoredBefore(a: seq<int>, b: seq<int>, i: nat, j: nat, behindA: seq<int>,
                              behindB: seq<int>): (s: seq<int>)
    requires i < |a| && j < |b| && |behindA| == |behindB| == 3
    ensures |s| >= i + j + 4 * Whole(|a| - i) + 4 * Whole(|b| - j)
  {
    Merge(a, b)[..i + j] + Blocks(BitonicMerge4, a[i..], b[j..], Whole(|a| - i), Whole(|b| - j), behindA, behindB)
  }

  ghost function AfterPrefix(a: seq<int>, b: seq<int>, i: nat, j: nat, stored: seq<int>): (r: Stores)
    requires i < |a| && j < |b| && i + j + 4 * Whole(|a| - i) + 4 * Whole(|b| - j) <= |stored|
    ensures |r.keys| == |a| + |b|
  {
    Tails(a, b, stored, i + 4 * Whole(|a| - i), j + 4 * Whole(|b| - j))
  }

  ghost function UnalignedMerge(a: seq<int>, b: seq<int>, aligned: Alignment, behindA: seq<int>,
                                behindB: seq<int>): (r: Stores)
    requires |behindA| == |behindB| == 3
    ensures |r.keys| == |a| + |b|
  {
    var (i, j) := AlignPoint(a, b, aligned, 0, 0);
    if i == |a| || j == |b| then Stores(Merge(a, b), [])
    else AfterPrefix(a, b, i, j, StoredBefore(a, b, i, j, behindA, behindB))
  }

  // ------------------------------------------------ prefix and blocks, as one run

  lemma SplitMultiset(m: multiset<int>, p: multiset<int>, q: multiset<int>, a: multiset<int>, a': multiset<int>,
                      b: multiset<int>, b': multiset<int>)
    requires m == p + q && m == (a + a') + (b + b') && q == a' + b'
    ensures p == a + b
  {
    forall x ensures p[x] == (a + b)[x] {
      assert m[x] == p[x] + q[x] && m[x] == a[x] + a'[x] + b[x] + b'[x] && q[x] == a'[x] + b'[x];
    }
  }

  lemma TakeDrop(s: seq<int>, i: nat)
    requires i <= |s|
    ensures multiset(s) == multiset(s[..i]) + multiset(s[i..])
  {
    assert s == s[..i] + s[i..];
  }

  /** The cursors' keys are exactly the keys in front of the merge. */
  lemma CursorKeys(a: seq<int>, b: seq<int>, m: seq<int>, i: nat, j: nat)
    requires m == Merge(a, b) && Cursors(a, b, m, i, j)
    ensures multiset(m[..i + j]) == multiset(a[..i]) + multiset(b[..j])
  {
    MergeMultiset(a, b);
    MergeMultiset(a[i..], b[j..]);
    TakeDrop(m, i + j);
    TakeDrop(a, i);
    TakeDrop(b, j);
    SplitMultiset(multiset(m), multiset(m[..i + j]), multiset(m[i + j..]), multiset(a[..i]), multiset(a[i..]),
                  multiset(b[..j]), multiset(b[j..]));
  }

  /** Every key the cursors have passed is at most every key still to come. */
  lemma CursorOrder(a: seq<int>, b: seq<int>, m: seq<int>, i: nat, j: nat, x: int, y: int)
    requires m == Merge(a, b) && Sorted(m) && Cursors(a, b, m, i, j) && x in m[..i + j] && (y in a[i..] || y in b[j..])
    ensures x <= y
  {
    MergeMember(a[i..], b[j..], y);
    var s :| 0 <= s < i + j && m[s] == x;
    var t :| 0 <= t < |m| - i - j && m[i + j..][t] == y;
    assert Ordered(m, s, i + j + t);
  }

  /** The keys of a block stretch lie among the keys still to come. */
  lemma StretchMember(s: seq<int>, i: nat, c: nat, y: int)
    requires i + c <= |s| && y in s[i..i + c]
    ensures y in s[i..]
  {
    var t :| 0 <= t < c && s[i..i + c][t] == y;
    assert s[i..][t] == y;
  }

  /** What is in the destination after the block merge. */
  function BlockRun(a: seq<int>, b: seq<int>, m: seq<int>, i: nat, j: nat, ca: nat, cb: nat): (r: seq<int>)
    requires i + ca <= |a| && j + cb <= |b| && i + j <= |m|
    ensures |r| == i + j + ca + cb
  {
    m[..i + j] + Merge(a[i..i + ca], b[j..j + cb])
  }

  lemma BlockRunOrder(a: seq<int>, b: seq<int>, m: seq<int>, i: nat, j: nat, ca: nat, cb: nat, x: int, y: int)
    requires m == Merge(a, b) && Sorted(m) && Cursors(a, b, m, i, j) && i + ca <= |a| && j + cb <= |b|
    requires x in m[..i + j] && y in Merge(a[i..i + ca], b[j..j + cb])
    ensures x <= y
  {
    MergeMember(a[i..i + ca], b[j..j + cb], y);
    if y in a[i..i + ca] { StretchMember(a, i, ca, y); } else { StretchMember(b, j, cb, y); }
    CursorOrder(a, b, m, i, j, x, y);
  }

  ghost predicate Below(s: seq<int>, t: seq<int>) { forall x, y :: x in s && y in t ==> x <= y }

  lemma JoinBelow(s: seq<int>, t: seq<int>)
    requires Sorted(s) && Sorted(t) && Below(s, t)
    ensures Sorted(s + t)
  {
    SortedConcat(s, t);
  }

  lemma BlockBelow(a: seq<int>, b: seq<int>, m: seq<int>, i: nat, j: nat, ca: nat, cb: nat, prefix: seq<int>,
                   block: seq<int>)
    requires m == Merge(a, b) && Sorted(m) && Cursors(a, b, m, i, j) && i + ca <= |a| && j + cb <= |b|
    requires prefix == m[..i + j] && block == Merge(a[i..i + ca], b[j..j + cb])
    ensures Below(prefix, block)
  {
    forall x, y | x in prefix && y in block ensures x <= y { BlockRunOrder(a, b, m, i, j, ca, cb, x, y); }
  }

  lemma StretchSorted(a: seq<int>, b: seq<int>, i: nat, j: nat, ca: nat, cb: nat)
    requires Sorted(a) && Sorted(b) && i + ca <= |a| && j + cb <= |b|
    ensures Sorted(Merge(a[i..i + ca], b[j..j + cb]))
  {
    SortedPiece(a, i, i + ca);
    SortedPiece(b, j, j + cb);
    MergeSorted(a[i..i + ca], b[j..j + cb]);
  }

  lemma PrefixSorted(m: seq<int>, p: nat)
    requires Sorted(m) && p <= |m|
    ensures Sorted(m[..p])
  {
    SortedPiece(m, 0, p);
    assert m[0..p] == m[..p];
  }

  lemma PrefixParts(a: seq<int>, b: seq<int>, m: seq<int>, p: nat, prefix: seq<int>)
    requires Sorted(a) && Sorted(b) && m == Merge(a, b) && p <= |m| && prefix == m[..p]
    ensures Sorted(m) && Sorted(prefix)
  {
    MergeSorted(a, b);
    PrefixSorted(m, p);
  }

  lemma BlockParts(a: seq<int>, b: seq<int>, m: seq<int>, i: nat, j: nat, ca: nat, cb: nat, prefix: seq<int>,
                   block: seq<int>)
    requires Sorted(a) && Sorted(b) && m == Merge(a, b) && Cursors(a, b, m, i, j) && i + ca <= |a| && j + cb <= |b|
    requires prefix == m[..i + j] && block == Merge(a[i..i + ca], b[j..j + cb])
    ensures Sorted(prefix) && Sorted(block) && Below(prefix, block)
  {
    PrefixParts(a, b, m, i + j, prefix);
    StretchSorted(a, b, i, j, ca, cb);
    BlockBelow(a, b, m, i, j, ca, cb, prefix, block);
  }

  lemma BlockRunSorted(a: seq<int>, b: seq<int>, m: seq<int>, i: nat, j: nat, ca: nat, cb: nat)
    requires Sorted(a) && Sorted(b) && m == Merge(a, b) && Cursors(a, b, m, i, j) && i + ca <= |a| && j + cb <= |b|
    ensures Sorted(BlockRun(a, b, m, i, j, ca, cb))
  {
    var prefix, block := m[..i + j], Merge(a[i..i + ca], b[j..j + cb]);
    BlockParts(a, b, m, i, j, ca, cb, prefix, block);
    JoinBelow(prefix, block);
  }

  lemma TakeStretch(s: seq<int>, i: nat, c: nat)
    requires i + c <= |s|
    ensures multiset(s[..i + c]) == multiset(s[..i]) + multiset(s[i..i + c])
  {
    assert s[..i + c] == s[..i] + s[i..i + c];
  }

  lemma BlockRunKeys(a: seq<int>, b: seq<int>, m: seq<int>, i: nat, j: nat, ca: nat, cb: nat)
    requires m == Merge(a, b) && Cursors(a, b, m, i, j) && i + ca <= |a| && j + cb <= |b|
    ensures multiset(BlockRun(a, b, m, i, j, ca, cb)) == multiset(a[..i + ca]) + multiset(b[..j + cb])
  {
    CursorKeys(a, b, m, i, j);
    MergeMultiset(a[i..i + ca], b[j..j + cb]);
    TakeStretch(a, i, ca);
    TakeStretch(b, j, cb);
    Shuffle4(multiset(a[..i]), multiset(b[..j]), multiset(a[i..i + ca]), multiset(b[j..j + cb]));
  }

  lemma Shuffle4(p: multiset<int>, q: multiset<int>, r: multiset<int>, s: multiset<int>)
    ensures (p + q) + (r + s) == (p + r) + (q + s)
  {}

  lemma AllKeys(a: seq<int>, b: seq<int>, p: nat, q: nat, run: seq<int>, run': seq<int>, run'': seq<int>)
    requires p <= |a| && q <= |b| && multiset(run) == multiset(a[..p]) + multiset(b[..q])
    requires multiset(run') == multiset(run) + multiset(a[p..])
    requires multiset(run'') == multiset(run') + multiset(b[q..])
    ensures multiset(run'') == multiset(a) + multiset(b)
  {
    assert a == a[..p] + a[p..] && b == b[..q] + b[q..];
    Shuffle4(multiset(a[..p]), multiset(b[..q]), multiset(a[p..]), multiset(b[q..]));
  }

  // ------------------------------------------------------------ when it is a merge

  ghost predicate IsMerge(r: Stores, m: seq<int>) { r.keys == m && r.spill == [] }

  /** The block the merge starts with is whole; or no side has one and the four keys of the
      only store all fall into the destination, where the tail loops store over them. */
  ghost predicate StartsWell(a: seq<int>, b: seq<int>, i: nat, j: nat)
    requires i < |a| && j < |b|
  {
    var nA, nB := Whole(|a| - i), Whole(|b| - j);
    if nA + nB == 0 then (|a| - i) + (|b| - j) >= 4 else FirstIsWhole(a[i..], b[j..], nA, nB)
  }

  /** The blocks of both sides' rests, merged. */
  lemma BlocksAreMerged(ra: seq<int>, rb: seq<int>, nA: nat, nB: nat, behindA: seq<int>, behindB: seq<int>,
                        blocks: seq<int>)
    requires Sorted(ra) && Sorted(rb) && ra != [] && rb != [] && 4 * nA <= |ra| && 4 * nB <= |rb|
    requires |behindA| == |behindB| == 3 && blocks == Blocks(BitonicMerge4, ra, rb, nA, nB, behindA, behindB)
    requires if nA + nB == 0 then |ra| + |rb| >= 4 else FirstIsWhole(ra, rb, nA, nB)
    ensures 4 * nA + 4 * nB <= |blocks| <= |ra| + |rb| && blocks[..4 * nA + 4 * nB] == Merge(ra[..4 * nA], rb[..4 * nB])
  {
    if nA + nB > 0 {
      BitonicMerges();
      BlocksMerge(BitonicMerge4, ra, rb, nA, nB, behindA, behindB);
    }
  }

  lemma PieceOf(s: seq<int>, i: nat, rest: seq<int>, n: nat)
    requires Sorted(s) && i + n <= |s| && rest == s[i..]
    ensures Sorted(rest) && rest[..n] == s[i..i + n]
  {
    SortedPiece(s, i, |s|);
    assert s[i..|s|] == rest;
  }

  lemma JoinPieces(prefix: seq<int>, blocks: seq<int>, n: nat)
    requires n <= |blocks|
    ensures (prefix + blocks)[..|prefix| + n] == prefix + blocks[..n]
  {}

  /** What is in the destination when the tail loops start. */
  lemma RunIsBlockRun(a: seq<int>, b: seq<int>, m: seq<int>, i: nat, j: nat, ra: seq<int>, rb: seq<int>, nA: nat,
                      nB: nat,
                      behindA: seq<int>, behindB: seq<int>, blocks: seq<int>, ca: nat, cb: nat)
    requires Sorted(a) && Sorted(b) && i < |a| && j < |b| && i + j <= |m| && ra == a[i..] && rb == b[j..]
    requires ca == 4 * nA <= |ra| && cb == 4 * nB <= |rb| && |behindA| == |behindB| == 3
    requires if nA + nB == 0 then |ra| + |rb| >= 4 else FirstIsWhole(ra, rb, nA, nB)
    requires blocks == Blocks(BitonicMerge4, ra, rb, nA, nB, behindA, behindB)
    ensures ca + cb <= |blocks| <= |ra| + |rb|
    ensures (m[..i + j] + blocks)[..i + j + (ca + cb)] == BlockRun(a, b, m, i, j, ca, cb)
  {
    PieceOf(a, i, ra, ca);
    PieceOf(b, j, rb, cb);
    BlocksAreMerged(ra, rb, nA, nB, behindA, behindB, blocks);
    JoinPieces(m[..i + j], blocks, ca + cb);
  }

  lemma TailsSort(a: seq<int>, b: seq<int>, p: nat, q: nat, run: seq<int>, run': seq<int>, run'': seq<int>)
    requires Sorted(a) && Sorted(b) && Sorted(run) && p <= |a| && q <= |b|
    requires multiset(run) == multiset(a[..p]) + multiset(b[..q])
    requires run' == InsertAll(run, a[p..]) && run'' == InsertAll(run', b[q..])
    ensures run'' == Merge(a, b)
  {
    InsertAllSorted(run, a[p..]);
    InsertAllSorted(run', b[q..]);
    InsertAllKeys(run, a[p..]);
    InsertAllKeys(run', b[q..]);
    AllKeys(a, b, p, q, run, run', run'');
    MergeSorted(a, b);
    MergeMultiset(a, b);
    SortedUnique(run'', Merge(a, b));
  }

  lemma TailsFinish(a: seq<int>, b: seq<int>, stored: seq<int>, p: nat, q: nat, run: seq<int>)
    requires Sorted(a) && Sorted(b) && Sorted(run) && p <= |a| && q <= |b| && p + q <= |stored| <= |a| + |b|
    requires run == stored[..p + q] && multiset(run) == multiset(a[..p]) + multiset(b[..q])
    ensures IsMerge(Tails(a, b, stored, p, q), Merge(a, b))
  {
    TailsSort(a, b, p, q, run, InsertAll(run, a[p..]), InsertAll(InsertAll(run, a[p..]), b[q..]));
  }

  lemma BlockRunGood(a: seq<int>, b: seq<int>, m: seq<int>, i: nat, j: nat, ca: nat, cb: nat, run: seq<int>, p: nat,
                     q: nat)
    requires Sorted(a) && Sorted(b) && m == Merge(a, b) && Cursors(a, b, m, i, j)
    requires p == i + ca <= |a| && q == j + cb <= |b| && run == BlockRun(a, b, m, i, j, ca, cb)
    ensures Sorted(run) && multiset(run) == multiset(a[..p]) + multiset(b[..q])
  {
    BlockRunSorted(a, b, m, i, j, ca, cb);
    BlockRunKeys(a, b, m, i, j, ca, cb);
  }

  /** The tail loops start from a sorted run of the right keys, and no key lies behind the destination. */
  lemma RunBefore(a: seq<int>, b: seq<int>, m: seq<int>, i: nat, j: nat, nA: nat, nB: nat, behindA: seq<int>,
                  behindB: seq<int>,
                  blocks: seq<int>, stored: seq<int>, p: nat, q: nat, run: seq<int>)
    requires Sorted(a) && Sorted(b) && m == Merge(a, b) && Cursors(a, b, m, i, j) && i < |a| && j < |b|
    requires |behindA| == |behindB| == 3 && StartsWell(a, b, i, j) && nA == Whole(|a| - i) && nB == Whole(|b| - j)
    requires blocks == Blocks(BitonicMerge4, a[i..], b[j..], nA, nB, behindA, behindB) && stored == m[..i + j] + blocks
    requires p == i + 4 * nA && q == j + 4 * nB && run == stored[..p + q]
    ensures |stored| <= |a| + |b| && Sorted(run) && multiset(run) == multiset(a[..p]) + multiset(b[..q])
  {
    RunIsBlockRun(a, b, m, i, j, a[i..], b[j..], nA, nB, behindA, behindB, blocks, 4 * nA, 4 * nB);
    BlockRunGood(a, b, m, i, j, 4 * nA, 4 * nB, run, p, q);
  }

  lemma StoredRun(a: seq<int>, b: seq<int>, i: nat, j: nat, behindA: seq<int>, behindB: seq<int>, stored: seq<int>,
                  p: nat, q: nat)
    requires Sorted(a) && Sorted(b) && Cursors(a, b, Merge(a, b), i, j) && i < |a| && j < |b|
    requires |behindA| == |behindB| == 3 && StartsWell(a, b, i, j)
             && stored == StoredBefore(a, b, i, j, behindA, behindB)
    requires p == i + 4 * Whole(|a| - i) && q == j + 4 * Whole(|b| - j)
    ensures p + q <= |stored| <= |a| + |b|
    ensures Sorted(stored[..p + q]) && multiset(stored[..p + q]) == multiset(a[..p]) + multiset(b[..q])
  {
    var nA, nB := Whole(|a| - i), Whole(|b| - j);
    RunBefore(a, b, Merge(a, b), i, j, nA, nB, behindA, behindB,
              Blocks(BitonicMerge4, a[i..], b[j..], nA, nB, behindA, behindB), stored, p, q, stored[..p + q]);
  }

  lemma AfterPrefixMerges(a: seq<int>, b: seq<int>, i: nat, j: nat, behindA: seq<int>, behindB: seq<int>,
                          stored: seq<int>, p: nat, q: nat, r: Stores)
    requires Sorted(a) && Sorted(b) && Cursors(a, b, Merge(a, b), i, j) && i < |a| && j < |b|
    requires |behindA| == |behindB| == 3 && StartsWell(a, b, i, j)
             && stored == StoredBefore(a, b, i, j, behindA, behindB)
    requires p == i + 4 * Whole(|a| - i) && q == j + 4 * Whole(|b| - j) && r == Tails(a, b, stored, p, q)
    ensures IsMerge(r, Merge(a, b))
  {
    StoredRun(a, b, i, j, behindA, behindB, stored, p, q);
    TailsFinish(a, b, stored, p, q, stored[..p + q]);
  }

  /** A key smaller than all others. */
  ghost function Tiny(s: seq<int>): (v: int)
    ensures forall x :: x in s ==> v < x
  {
    if s == [] then 0
    else
      var v := Tiny(s[1..]);
      assert forall x :: x in s ==> x == s[0] || x in s[1..];
      if v < s[0] then v else s[0] - 1
  }

  lemma TailOf(s: seq<int>, i: nat, v: int)
    requires i <= |s| && forall x :: x in s ==> v < x
    ensures forall x :: x in s[i..] ==> v < x
  {
    forall x | x in s[i..] ensures v < x { assert x in s; }
  }

  lemma KeyOfRun(prefix: seq<int>, r: seq<int>, n: nat, v: int)
    requires 4 <= n <= |r| && v in r[..4]
    ensures v in (prefix + r)[..|prefix| + n]
  {
    var t :| 0 <= t < 4 && r[..4][t] == v;
    assert (prefix + r)[..|prefix| + n][|prefix| + t] == v;
  }

  /** Otherwise a key behind a side can end up in the result, or keys are stored behind it. */
  lemma LowKeyStored(a: seq<int>, b: seq<int>, i: nat, j: nat, ra: seq<int>, rb: seq<int>, nA: nat, nB: nat, v: int,
                     behind: seq<int>, blocks: seq<int>, prefix: seq<int>, stored: seq<int>, p: nat, q: nat)
    requires i < |a| && j < |b| && ra == a[i..] && rb == b[j..] && behind == [v, v, v] && |prefix| == i + j
    requires 4 * nA <= |ra| < 4 * nA + 4 && 4 * nB <= |rb| < 4 * nB + 4 && nA + nB > 0
    requires blocks == Blocks(BitonicMerge4, ra, rb, nA, nB, behind, behind) && p == i + 4 * nA && q == j + 4 * nB
    requires stored == prefix + blocks && !FirstIsWhole(ra, rb, nA, nB) && forall x :: x in a || x in b ==> v < x
    ensures v in stored[..p + q]
  {
    TailOf(a, i, v);
    TailOf(b, j, v);
    BehindComesFirst(ra, rb, nA, nB, behind, behind, v);
    KeyOfRun(prefix, blocks, 4 * nA + 4 * nB, v);
  }

  /** Otherwise a key behind a side can end up in the result, or keys are stored behind it. */
  lemma AfterPrefixFails(a: seq<int>, b: seq<int>, i: nat, j: nat, v: int, behind: seq<int>,
                         stored: seq<int>, p: nat, q: nat, r: Stores)
    requires i < |a| && j < |b| && behind == [v, v, v] && stored == StoredBefore(a, b, i, j, behind, behind)
    requires p == i + 4 * Whole(|a| - i) && q == j + 4 * Whole(|b| - j) && r == Tails(a, b, stored, p, q)
    requires !StartsWell(a, b, i, j) && forall x :: x in a || x in b ==> v < x
    ensures !IsMerge(r, Merge(a, b))
  {
    var nA, nB := Whole(|a| - i), Whole(|b| - j);
    if nA + nB > 0 {
      var blocks := Blocks(BitonicMerge4, a[i..], b[j..], nA, nB, behind, behind);
      LowKeyStored(a, b, i, j, a[i..], b[j..], nA, nB, v, behind, blocks, Merge(a, b)[..i + j], stored, p, q);
      KeyStays(a, b, stored, p, q, v);
    }
  }

  lemma KeyStays(a: seq<int>, b: seq<int>, stored: seq<int>, p: nat, q: nat, v: int)
    requires p <= |a| && q <= |b| && p + q <= |stored| && v in stored[..p + q] && v !in a && v !in b
    ensures !IsMerge(Tails(a, b, stored, p, q), Merge(a, b))
  {
    InsertAllKeeps(stored[..p + q], a[p..], v);
    InsertAllKeeps(InsertAll(stored[..p + q], a[p..]), b[q..], v);
    MergeMember(a, b, v);
  }

  /** The merge may start: a side is used up, or it starts well. */
  ghost predicate MayStart(a: seq<int>, b: seq<int>, aligned: Alignment) {
    var (i, j) := AlignPoint(a, b, aligned, 0, 0);
    i == |a| || j == |b| || StartsWell(a, b, i, j)
  }

  lemma AfterPrefixIs(a: seq<int>, b: seq<int>, i: nat, j: nat, stored: seq<int>, p: nat, q: nat, r: Stores)
    requires i < |a| && j < |b| && p == i + 4 * Whole(|a| - i) && q == j + 4 * Whole(|b| - j) && p + q <= |stored|
    requires r == AfterPrefix(a, b, i, j, stored)
    ensures r == Tails(a, b, stored, p, q)
  {}

  lemma WellStarted(a: seq<int>, b: seq<int>, i: nat, j: nat, behindA: seq<int>, behindB: seq<int>,
                    stored: seq<int>, p: nat, q: nat, r: Stores)
    requires Sorted(a) && Sorted(b) && Cursors(a, b, Merge(a, b), i, j) && i < |a| && j < |b|
    requires |behindA| == |behindB| == 3 && StartsWell(a, b, i, j)
             && stored == StoredBefore(a, b, i, j, behindA, behindB)
    requires p == i + 4 * Whole(|a| - i) && q == j + 4 * Whole(|b| - j) && r == AfterPrefix(a, b, i, j, stored)
    ensures IsMerge(r, Merge(a, b))
  {
    AfterPrefixIs(a, b, i, j, stored, p, q, r);
    AfterPrefixMerges(a, b, i, j, behindA, behindB, stored, p, q, r);
  }

  lemma MergesWhenStarted(a: seq<int>, b: seq<int>, aligned: Alignment, behindA: seq<int>, behindB: seq<int>)
    requires Sorted(a) && Sorted(b) && |behindA| == |behindB| == 3 && MayStart(a, b, aligned)
    ensures IsMerge(UnalignedMerge(a, b, aligned, behindA, behindB), Merge(a, b))
  {
    var (i, j) := AlignPoint(a, b, aligned, 0, 0);
    AlignPrefix(a, b, Merge(a, b), aligned, i, j);
    if i < |a| && j < |b| {
      WellStarted(a, b, i, j, behindA, behindB, StoredBefore(a, b, i, j, behindA, behindB),
                  i + 4 * Whole(|a| - i), j + 4 * Whole(|b| - j), UnalignedMerge(a, b, aligned, behindA, behindB));
    }
  }

  lemma AlignPrefix(a: seq<int>, b: seq<int>, m: seq<int>, aligned: Alignment, i: nat, j: nat)
    requires m == Merge(a, b) && (i, j) == AlignPoint(a, b, aligned, 0, 0)
    ensures Cursors(a, b, m, i, j)
  {
    assert a[0..] == a && b[0..] == b && m[0..] == m;
    AlignCursors(a, b, m, aligned, 0, 0);
  }

  lemma BadlyStarted(a: seq<int>, b: seq<int>, i: nat, j: nat, v: int, behind: seq<int>,
                     stored: seq<int>, p: nat, q: nat, r: Stores)
    requires i < |a| && j < |b| && behind == [v, v, v] && stored == StoredBefore(a, b, i, j, behind, behind)
    requires p == i + 4 * Whole(|a| - i) && q == j + 4 * Whole(|b| - j) && r == AfterPrefix(a, b, i, j, stored)
    requires !StartsWell(a, b, i, j) && forall x :: x in a || x in b ==> v < x
    ensures !IsMerge(r, Merge(a, b))
  {
    AfterPrefixIs(a, b, i, j, stored, p, q, r);
    AfterPrefixFails(a, b, i, j, v, behind, stored, p, q, r);
  }

  lemma FailsOtherwise(a: seq<int>, b: seq<int>, aligned: Alignment, v: int)
    requires !MayStart(a, b, aligned) && forall x :: x in a || x in b ==> v < x
    ensures !IsMerge(UnalignedMerge(a, b, aligned, [v, v, v], [v, v, v]), Merge(a, b))
  {
    var (i, j) := AlignPoint(a, b, aligned, 0, 0);
    var behind := [v, v, v];
    BadlyStarted(a, b, i, j, v, behind, StoredBefore(a, b, i, j, behind, behind),
                 i + 4 * Whole(|a| - i), j + 4 * Whole(|b| - j), UnalignedMerge(a, b, aligned, behind, behind));
  }

  /** For sorted sides: whatever lies behind them, the destination becomes the merge and
      nothing is stored behind it, exactly when the merge may start. */
  lemma UnalignedMergeExactly(a: seq<int>, b: seq<int>, aligned: Alignment)
    requires Sorted(a) && Sorted(b)
    ensures (forall behindA, behindB | |behindA| == |behindB| == 3 ::
               IsMerge(UnalignedMerge(a, b, aligned, behindA, behindB), Merge(a, b))) <==> MayStart(a, b, aligned)
  {
    if MayStart(a, b, aligned) {
      forall behindA, behindB | |behindA| == |behindB| == 3
        ensures IsMerge(UnalignedMerge(a, b, aligned, behindA, behindB), Merge(a, b))
      {
        MergesWhenStarted(a, b, aligned, behindA, behindB);
      }
    } else {
      var v := Tiny(a + b);
      forall x | x in a || x in b ensures v < x { assert x in a + b; }
      FailsOtherwise(a, b, aligned, v);
    }
  }

  // --------------------------------------------- looking in front of the destination

  ghost predicate TailsFront(a: seq<int>, b: seq<int>, p: nat, q: nat, run: seq<int>)
    requires p <= |a| && q <= |b|
  {
    Front(run, a[p..]) || Front(InsertAll(run, a[p..]), b[q..])
  }

  /** Some tail loop compares with what lies in front of the destination. */
  ghost predicate LooksInFront(a: seq<int>, b: seq<int>, aligned: Alignment, behindA: seq<int>, behindB: seq<int>)
    requires |behindA| == |behindB| == 3
  {
    var (i, j) := AlignPoint(a, b, aligned, 0, 0);
    i < |a| && j < |b| && FrontAfter(a, b, i, j, StoredBefore(a, b, i, j, behindA, behindB))
  }

  ghost predicate FrontAfter(a: seq<int>, b: seq<int>, i: nat, j: nat, stored: seq<int>)
    requires i < |a| && j < |b| && i + j + 4 * Whole(|a| - i) + 4 * Whole(|b| - j) <= |stored|
  {
    var p, q := i + 4 * Whole(|a| - i), j + 4 * Whole(|b| - j);
    TailsFront(a, b, p, q, stored[..p + q])
  }

  lemma NoFront(a: seq<int>, b: seq<int>, p: nat, q: nat, run: seq<int>, x: int, y: int)
    requires p <= |a| && q <= |b| && x in run && y in run
    requires (forall z :: z in a[p..] ==> x <= z) && (forall z :: z in b[q..] ==> y <= z)
    ensures !TailsFront(a, b, p, q, run)
  {
    NotFront(run, a[p..], x);
    InsertAllKeeps(run, a[p..], y);
    NotFront(InsertAll(run, a[p..]), b[q..], y);
  }

  lemma HeadInRun(s: seq<int>, p: nat, run: seq<int>, rest: multiset<int>)
    requires 0 < p <= |s| && multiset(run) == multiset(s[..p]) + rest
    ensures s[0] in run
  {
    assert s[..p][0] == s[0] && s[0] in multiset(s[..p]) && s[0] in multiset(run);
  }

  lemma HeadBelow(s: seq<int>, p: nat, x: int)
    requires Sorted(s) && p <= |s| && s != [] && x <= s[0]
    ensures forall z :: z in s[p..] ==> x <= z
  {
    forall z | z in s[p..] ensures x <= z {
      var t :| 0 <= t < |s| - p && s[p..][t] == z;
      assert Ordered(s, 0, p + t);
    }
  }

  /** Without keys in front of it, the run of blocks starts with a block of the side whose
      head is not the smaller one. */
  lemma FrontOfBlocks(a: seq<int>, b: seq<int>, p: nat, q: nat, run: seq<int>)
    requires Sorted(a) && Sorted(b) && a != [] && b != [] && p <= |a| && q <= |b|
    requires multiset(run) == multiset(a[..p]) + multiset(b[..q])
    requires p == 0 == q || (if a[0] < b[0] then q > 0 else p > 0)
    ensures TailsFront(a, b, p, q, run) <==> p == 0 || (q == 0 && b[0] < a[0])
  {
    if p == 0 {
      FrontByA(a, b, q, run);
    } else if q > 0 {
      HeadInRun(a, p, run, multiset(b[..q]));
      HeadInRun(b, q, run, multiset(a[..p]));
      HeadBelow(a, p, a[0]);
      HeadBelow(b, q, b[0]);
      NoFront(a, b, p, q, run, a[0], b[0]);
    } else if b[0] < a[0] {
      FrontByB(a, b, p, run);
    } else {
      HeadInRun(a, p, run, multiset(b[..q]));
      HeadBelow(a, p, a[0]);
      HeadBelow(b, q, a[0]);
      NoFront(a, b, p, q, run, a[0], a[0]);
    }
  }

  lemma FrontByA(a: seq<int>, b: seq<int>, q: nat, run: seq<int>)
    requires Sorted(b) && a != [] && b != [] && q <= |b| && (q > 0 ==> a[0] < b[0])
    requires multiset(run) == multiset(a[..0]) + multiset(b[..q])
    ensures TailsFront(a, b, 0, q, run)
  {
    HeadBelow(b, 0, b[0]);
    assert a[0..] == a && b[0..] == b;
    forall y | y in run ensures a[0] < y {
      assert y in multiset(run) && y in multiset(b[..q]);
      assert y in b[..q] && y in b;
    }
  }

  lemma FrontByB(a: seq<int>, b: seq<int>, p: nat, run: seq<int>)
    requires Sorted(a) && a != [] && b != [] && p <= |a| && b[0] < a[0]
    requires multiset(run) == multiset(a[..p]) + multiset(b[..0])
    ensures TailsFront(a, b, p, 0, run)
  {
    var run' := InsertAll(run, a[p..]);
    HeadBelow(a, 0, a[0]);
    assert a[0..] == a && b[0..] == b;
    InsertAllKeys(run, a[p..]);
    TakeDrop(a, p);
    forall y | y in run' ensures b[0] < y {
      assert y in multiset(run') && y in multiset(a);
      assert y in a;
    }
  }

  /** Keys of the merge in front of the blocks keep the tail loops away from index 0. */
  lemma PrefixStops(a: seq<int>, b: seq<int>, m: seq<int>, p: nat, q: nat, run: seq<int>)
    requires Sorted(a) && Sorted(b) && a != [] && b != [] && m == Merge(a, b) && p <= |a| && q <= |b|
    requires run != [] && run[0] == m[0]
    ensures !TailsFront(a, b, p, q, run)
  {
    MergeSorted(a, b);
    SortedTail(m);
    MergeMember(a, b, a[0]);
    MergeMember(a, b, b[0]);
    HeadBelow(a, p, m[0]);
    HeadBelow(b, q, m[0]);
    NoFront(a, b, p, q, run, m[0], m[0]);
  }

  /** The whole merge in terms of what is stored before the tail loops. */
  lemma UnalignedIs(a: seq<int>, b: seq<int>, aligned: Alignment, behindA: seq<int>, behindB: seq<int>, i: nat, j: nat,
                    stored: seq<int>, p: nat, q: nat)
    requires |behindA| == |behindB| == 3 && (i, j) == AlignPoint(a, b, aligned, 0, 0) && i < |a| && j < |b|
    requires stored == StoredBefore(a, b, i, j, behindA, behindB)
    requires p == i + 4 * Whole(|a| - i) && q == j + 4 * Whole(|b| - j)
    ensures UnalignedMerge(a, b, aligned, behindA, behindB) == Tails(a, b, stored, p, q)
    ensures LooksInFront(a, b, aligned, behindA, behindB) == TailsFront(a, b, p, q, stored[..p + q])
  {
    AfterPrefixIs(a, b, i, j, stored, p, q, AfterPrefix(a, b, i, j, stored));
    FrontAfterIs(a, b, i, j, stored, p, q);
  }

  lemma StoredIs(a: seq<int>, b: seq<int>, m: seq<int>, i: nat, j: nat, nA: nat, nB: nat, behindA: seq<int>,
                 behindB: seq<int>,
                 stored: seq<int>)
    requires |behindA| == |behindB| == 3 && i < |a| && j < |b| && m == Merge(a, b)
    requires nA == Whole(|a| - i) && nB == Whole(|b| - j)
    requires stored == m[..i + j] + Blocks(BitonicMerge4, a[i..], b[j..], nA, nB, behindA, behindB)
    ensures stored == StoredBefore(a, b, i, j, behindA, behindB)
  {}

  /** A merge that starts well looks in front of its destination exactly when no key comes
      before the blocks and `a` has no block, or `b` has none and the smaller head. */
  lemma LooksInFrontExactly(a: seq<int>, b: seq<int>, aligned: Alignment, behindA: seq<int>, behindB: seq<int>)
    requires Sorted(a) && Sorted(b) && |behindA| == |behindB| == 3 && MayStart(a, b, aligned)
    ensures LooksInFront(a, b, aligned, behindA, behindB) <==>
            (&& a != [] && b != [] && AlignPoint(a, b, aligned, 0, 0) == (0, 0)
             && (|a| < 4 || (|b| < 4 && b[0] < a[0])))
  {
    var (i, j) := AlignPoint(a, b, aligned, 0, 0);
    AlignPrefix(a, b, Merge(a, b), aligned, i, j);
    if i < |a| && j < |b| {
      FrontAfterExactly(a, b, i, j, behindA, behindB, StoredBefore(a, b, i, j, behindA, behindB),
                        i + 4 * Whole(|a| - i), j + 4 * Whole(|b| - j));
    }
  }

  lemma FrontAfterIs(a: seq<int>, b: seq<int>, i: nat, j: nat, stored: seq<int>, p: nat, q: nat)
    requires i < |a| && j < |b| && p == i + 4 * Whole(|a| - i) && q == j + 4 * Whole(|b| - j) && p + q <= |stored|
    ensures FrontAfter(a, b, i, j, stored) == TailsFront(a, b, p, q, stored[..p + q])
  {}

  lemma FrontAfterExactly(a: seq<int>, b: seq<int>, i: nat, j: nat, behindA: seq<int>, behindB: seq<int>,
                          stored: seq<int>, p: nat, q: nat)
    requires Sorted(a) && Sorted(b) && Cursors(a, b, Merge(a, b), i, j) && i < |a| && j < |b|
    requires |behindA| == |behindB| == 3 && StartsWell(a, b, i, j)
             && stored == StoredBefore(a, b, i, j, behindA, behindB)
    requires p == i + 4 * Whole(|a| - i) && q == j + 4 * Whole(|b| - j)
    ensures FrontAfter(a, b, i, j, stored) <==> i + j == 0 && (|a| < 4 || (|b| < 4 && b[0] < a[0]))
  {
    FrontAfterIs(a, b, i, j, stored, p, q);
    FrontAt(a, b, i, j, behindA, behindB, stored, p, q);
  }

  lemma FrontAt(a: seq<int>, b: seq<int>, i: nat, j: nat, behindA: seq<int>, behindB: seq<int>, stored: seq<int>,
                p: nat, q: nat)
    requires Sorted(a) && Sorted(b) && Cursors(a, b, Merge(a, b), i, j) && i < |a| && j < |b|
    requires |behindA| == |behindB| == 3 && StartsWell(a, b, i, j)
             && stored == StoredBefore(a, b, i, j, behindA, behindB)
    requires p == i + 4 * Whole(|a| - i) && q == j + 4 * Whole(|b| - j)
    ensures p + q <= |stored|
    ensures TailsFront(a, b, p, q, stored[..p + q]) <==> i + j == 0 && (|a| < 4 || (|b| < 4 && b[0] < a[0]))
  {
    StoredRun(a, b, i, j, behindA, behindB, stored, p, q);
    if i + j > 0 {
      assert stored[..p + q][0] == Merge(a, b)[0];
      PrefixStops(a, b, Merge(a, b), p, q, stored[..p + q]);
    } else {
      assert a[0..] == a && b[0..] == b;
      FrontOfBlocks(a, b, p, q, stored[..p + q]);
    }
  }

  /** One key against a block: the key 7 and what lies behind it go first, 7 is stored twice
      and the block's keys are lost. */
  lemma OneKeyBeforeABlock()
    ensures var r := UnalignedMerge([7], [5, 6, 7, 8], (i, j, k) => true, [0, 0, 0], [0, 0, 0]);
            r.keys == [0, 0, 0, 7, 7] && r.spill == [6, 7, 8]
  {
    var a, b, g := [7], [5, 6, 7, 8], [0, 0, 0];
    assert AlignPoint(a, b, (i, j, k) => true, 0, 0) == (0, 0);
    SevenAfter(a, b, g);
  }

  lemma SevenAfter(a: seq<int>, b: seq<int>, g: seq<int>)
    requires a == [7] && b == [5, 6, 7, 8] && g == [0, 0, 0]
    ensures var r := AfterPrefix(a, b, 0, 0, StoredBefore(a, b, 0, 0, g, g));
              r.keys == [0, 0, 0, 7, 7] && r.spill == [6, 7, 8]
  {
    SevenBlocks(a, b, g);
    assert a[0..] == a && b[0..] == b;
    var stored := StoredBefore(a, b, 0, 0, g, g);
    assert stored == [] + [0, 0, 0, 7, 5, 6, 7, 8];
    SevenTails(a, b, stored);
  }

  lemma SevenBlocks(a: seq<int>, b: seq<int>, g: seq<int>)
    requires a == [7] && b == [5, 6, 7, 8] && g == [0, 0, 0]
    ensures Blocks(BitonicMerge4, a, b, 0, 1, g, g) == [0, 0, 0, 7, 5, 6, 7, 8]
  {
    var x, y := Vec(7, 0, 0, 0), Vec(5, 6, 7, 8);
    assert b[..4] == b && WithBehind(a, g) == [7, 0, 0, 0];
    assert Load(WithBehind(a, g), 0) == x && Load(b, 0) == y;
    var p := BitonicMerge4(x, y);
    assert p == (Vec(0, 0, 0, 7), Vec(5, 6, 7, 8));
    assert !TakesA([], b, 0, 1, 0, 0) && Rounds(BitonicMerge4, [], b, 0, 1, 0, 1, p.1) == p.1.Keys();
    assert a[..0] == [];
  }

  lemma SevenTails(a: seq<int>, b: seq<int>, stored: seq<int>)
    requires a == [7] && b == [5, 6, 7, 8] && stored == [0, 0, 0, 7, 5, 6, 7, 8]
    ensures var r := Tails(a, b, stored, 0, 4); r.keys == [0, 0, 0, 7, 7] && r.spill == [6, 7, 8]
  {
    var run := stored[..4];
    assert run == [0, 0, 0, 7] && a[0..] == a && b[4..] == [];
    assert InsertBack(run, 7) == run + [7] && a[1..] == [];
    assert InsertAll(run, a) == InsertAll(run + [7], []) == run + [7];
  }
}
