/** The array code of the scalar merge, proved against the slice functions of
    ParallelMerge. */
module MergeUtils {
  import opened Arithmetic
  import opened SortedSeqs
  import opened Phases
  import opened ParallelMerge

  /** `before` with `keys` stored from offset d on. */
  function Overwritten(before: seq<int>, d: int, keys: seq<int>): (s: seq<int>)
    requires 0 <= d && d + |keys| <= |before|
    ensures |s| == |before|
  {
    before[..d] + keys + before[d + |keys|..]
  }

  /** `before` with the first k keys of `m` stored from offset d on. */
  function Stored(before: seq<int>, d: int, m: seq<int>, k: int): (s: seq<int>)
    requires 0 <= d && 0 <= k <= |m| && d + |m| <= |before|
    ensures |s| == |before|
  {
    Overwritten(before, d, m[..k])
  }

  lemma StoredAll(before: seq<int>, d: int, m: seq<int>)
    requires 0 <= d && d + |m| <= |before|
    ensures Stored(before, d, m, |m|) == Overwritten(before, d, m)
  {
    assert m[..|m|] == m;
  }

  lemma StoreNext(before: seq<int>, d: int, m: seq<int>, k: int)
    requires 0 <= d && 0 <= k < |m| && d + |m| <= |before|
    ensures Stored(before, d, m, k)[d + k := m[k]] == Stored(before, d, m, k + 1)
  {}

  lemma TakeLeft(a: seq<int>, b: seq<int>, i: int, j: int)
    requires 0 <= i < |a| && 0 <= j <= |b| && (j < |b| ==> a[i] < b[j])
    ensures Merge(a[i..], b[j..]) == [a[i]] + Merge(a[i + 1..], b[j..])
  {
    assert a[i..][1..] == a[i + 1..];
    assert j == |b| ==> a[i..] == [a[i]] + a[i + 1..];
  }

  lemma TakeRight(a: seq<int>, b: seq<int>, i: int, j: int)
    requires 0 <= i <= |a| && 0 <= j < |b| && (i < |a| ==> b[j] <= a[i])
    ensures Merge(a[i..], b[j..]) == [b[j]] + Merge(a[i..], b[j + 1..])
  {
    assert b[j..][1..] == b[j + 1..];
    assert i == |a| ==> b[j..] == [b[j]] + b[j + 1..];
  }

  /** The cursors (i, j) have consumed the first i + j keys of the merge m. */
  ghost predicate Cursors(a: seq<int>, b: seq<int>, m: seq<int>, i: int, j: int) {
    0 <= i <= |a| && 0 <= j <= |b| && i + j <= |m| && Merge(a[i..], b[j..]) == m[i + j..]
  }

  lemma CursorsLeft(a: seq<int>, b: seq<int>, m: seq<int>, i: int, j: int)
    requires Cursors(a, b, m, i, j) && i < |a| && (j < |b| ==> a[i] < b[j])
    ensures i + j < |m| && m[i + j] == a[i] && Cursors(a, b, m, i + 1, j)
  {
    TakeLeft(a, b, i, j);
    assert m[i + j..][1..] == m[i + j + 1..];
  }

  lemma CursorsRight(a: seq<int>, b: seq<int>, m: seq<int>, i: int, j: int)
    requires Cursors(a, b, m, i, j) && j < |b| && (i < |a| ==> b[j] <= a[i])
    ensures i + j < |m| && m[i + j] == b[j] && Cursors(a, b, m, i, j + 1)
  {
    TakeRight(a, b, i, j);
    assert m[i + j..][1..] == m[i + j + 1..];
  }

  /** One store of the merge loops: the key at rank k of `m`. */
  method StoreKey(dest: array<int>, ghost before: seq<int>, d: int, ghost m: seq<int>, k: int, key: int)
    requires 0 <= d && 0 <= k < |m| && d + |m| <= |before| && m[k] == key
    requires dest[..] == Stored(before, d, m, k)
    modifies dest
    ensures dest[..] == Stored(before, d, m, k + 1)
  {
    StoreNext(before, d, m, k);
    dest[d + k] := key;
  }

  /** The array stretch [s0, s0 + size) holds the keys `r`; nothing for a size below 1. */
  ghost predicate Holds(src: array<int>, s0: int, size: int, r: seq<int>)
    reads src
  {
    |r| == Max(0, size) && forall p :: 0 <= p < |r| ==> 0 <= s0 + p < src.Length && src[s0 + p] == r[p]
  }

  /** The copy loops: what is left of one side goes to the end of the destination. */
  method CopyRest(src: array<int>, s0: int, i0: int, size: int, ghost r: seq<int>,
                  dest: array<int>, ghost before: seq<int>, d: int, ghost m: seq<int>, k0: int)
    requires dest != src && Holds(src, s0, size, r) && 0 <= i0 <= |r|
    requires 0 <= d && 0 <= k0 <= |m| && d + |m| <= |before| && m[k0..] == r[i0..]
    requires dest[..] == Stored(before, d, m, k0)
    modifies dest
    ensures dest[..] == Stored(before, d, m, |m|)
  {
    var i, k := i0, k0;
    while i < size
      invariant i <= |r| && k == k0 + i - i0 && m[k..] == r[i..]
      invariant dest[..] == Stored(before, d, m, k)
    {
      assert m[k..][0] == r[i..][0] && m[k..][1..] == r[i..][1..];
      StoreKey(dest, before, d, m, k, src[s0 + i]);
      k, i := k + 1, i + 1;
    }
  }

  lemma CursorsStart(a: seq<int>, b: seq<int>, m: seq<int>, before: seq<int>, d: int)
    requires m == Merge(a, b) && 0 <= d && d + |m| <= |before|
    ensures Cursors(a, b, m, 0, 0) && Stored(before, d, m, 0) == before
  {
    assert a[0..] == a && b[0..] == b && m[0..] == m;
    assert before[..d] + m[..0] + before[d..] == before;
  }

  /** One turn of the compare loop: the smaller head is stored, `b`'s when they are equal. */
  method MergeStep(a: array<int>, a0: int, b: array<int>, b0: int, dest: array<int>, ghost before: seq<int>, d: int,
                   i: nat, j: nat, ghost sa: seq<int>, ghost sb: seq<int>, ghost m: seq<int>)
    returns (i': nat, j': nat)
    requires dest != a && dest != b && Holds(a, a0, |sa|, sa) && Holds(b, b0, |sb|, sb)
    requires Cursors(sa, sb, m, i, j) && i < |sa| && j < |sb|
    requires 0 <= d && d + |m| <= |before| && dest[..] == Stored(before, d, m, i + j)
    modifies dest
    ensures (i', j') == if sa[i] < sb[j] then (i + 1, j) else (i, j + 1)
    ensures Cursors(sa, sb, m, i', j') && dest[..] == Stored(before, d, m, i' + j')
  {
    i', j' := i, j;
    if a[a0 + i] < b[b0 + j] {
      CursorsLeft(sa, sb, m, i, j);
      StoreKey(dest, before, d, m, i + j, a[a0 + i]);
      i' := i + 1;
    } else {
      CursorsRight(sa, sb, m, i, j);
      StoreKey(dest, before, d, m, i + j, b[b0 + j]);
      j' := j + 1;
    }
  }

  /** The compare loop: stores heads until one side is empty. */
  method MergeHeads(a: array<int>, a0: int, b: array<int>, b0: int, dest: array<int>, ghost before: seq<int>, d: int,
                    sizea: int, sizeb: int, ghost sa: seq<int>, ghost sb: seq<int>, ghost m: seq<int>)
    returns (i: nat, j: nat)
    requires dest != a && dest != b && Holds(a, a0, sizea, sa) && Holds(b, b0, sizeb, sb)
    requires m == Merge(sa, sb) && 0 <= d && d + |m| <= |before| && dest[..] == before
    modifies dest
    ensures Cursors(sa, sb, m, i, j) && (i == |sa| || j == |sb|)
    ensures dest[..] == Stored(before, d, m, i + j)
  {
    i, j := 0, 0;
    CursorsStart(sa, sb, m, before, d);
    while i < sizea && j < sizeb
      invariant Cursors(sa, sb, m, i, j) && dest[..] == Stored(before, d, m, i + j)
      decreases |sa| + |sb| - i - j
    {
      i, j := MergeStep(a, a0, b, b0, dest, before, d, i, j, sa, sb, m);
    }
  }

  lemma OneSideLeft(a: seq<int>, b: seq<int>, m: seq<int>, i: int, j: int)
    requires m == Merge(a, b) && Cursors(a, b, m, i, j)
    ensures i == |a| ==> m[i + j..] == b[j..]
    ensures j == |b| ==> m[i + j..] == a[i..]
  {}

  lemma SliceHolds(a: array<int>, a0: int, size: int)
    requires size > 0 ==> 0 <= a0 && a0 + size <= a.Length
    ensures Holds(a, a0, size, Slice(a[..], a0, size))
  {}

  /** The three loops, over stretches that hold `sa` and `sb`. */
  method MergeStretches(a: array<int>, a0: int, b: array<int>, b0: int, dest: array<int>, d: int, sizea: int,
                        sizeb: int,
                        ghost before: seq<int>, ghost sa: seq<int>, ghost sb: seq<int>, ghost m: seq<int>)
    requires dest != a && dest != b && Holds(a, a0, sizea, sa) && Holds(b, b0, sizeb, sb) && m == Merge(sa, sb)
    requires 0 <= d && d + |m| <= |before| && dest[..] == before
    modifies dest
    ensures dest[..] == Stored(before, d, m, |m|)
  {
    var i, j := MergeHeads(a, a0, b, b0, dest, before, d, sizea, sizeb, sa, sb, m);
    OneSideLeft(sa, sb, m, i, j);
    if i < sizea {
      CopyRest(a, a0, i, sizea, sa, dest, before, d, m, i + j);
    } else {
      CopyRest(b, b0, j, sizeb, sb, dest, before, d, m, i + j);
    }
  }

  /** Merges sizea keys of `a` from a0 and sizeb keys of `b` from b0; a negative
      size means nothing is taken from that side. */
  method MergeArraysUnalignedNosse(a: array<int>, a0: int, b: array<int>, b0: int,
                                   dest: array<int>, d: int, sizea: int, sizeb: int)
    requires dest != a && dest != b
    requires sizea > 0 ==> 0 <= a0 && a0 + sizea <= a.Length
    requires sizeb > 0 ==> 0 <= b0 && b0 + sizeb <= b.Length
    requires 0 <= d && d + Max(0, sizea) + Max(0, sizeb) <= dest.Length
    modifies dest
    ensures var m := Merge(Slice(a[..], a0, sizea), Slice(b[..], b0, sizeb));
            dest[..] == Stored(old(dest[..]), d, m, |m|)
  {
    ghost var sa, sb := Slice(a[..], a0, sizea), Slice(b[..], b0, sizeb);
    SliceHolds(a, a0, sizea);
    SliceHolds(b, b0, sizeb);
    MergeStretches(a, a0, b, b0, dest, d, sizea, sizeb, dest[..], sa, sb, Merge(sa, sb));
  }

  /** The start search of a thread other than the first. */
  method FindStart(a: array<int>, b: array<int>, gamma: nat) returns (alpha: int)
    requires 0 < gamma < a.Length + b.Length && a.Length > 0 && b.Length > 0
    ensures alpha == StartAlpha(a[..], b[..], gamma)
  {
    ghost var sa, sb := a[..], b[..];
    var lo, hi := Max(0, gamma - b.Length), Min(a.Length, gamma);
    while lo + 1 < hi
      invariant SearchRange(sa, sb, gamma, lo, hi)
      invariant StartSearch(sa, sb, gamma, lo, hi) == StartAlpha(sa, sb, gamma)
      decreases hi - lo
    {
      var alpha' := (lo + hi) / 2;
      var beta' := gamma - alpha';
      StartTurn(sa, sb, gamma, lo, hi, alpha');
      if a[alpha'] <= b[beta'] { lo := alpha'; } else { hi := alpha'; }
    }
    if a[lo] <= b[gamma - hi] { alpha := hi; } else { alpha := lo; }
  }

  /** The end search of a thread other than the last. */
  method FindEnd(a: array<int>, b: array<int>, gamma: nat) returns (alpha: int)
    requires 0 < gamma < a.Length + b.Length && a.Length > 0 && b.Length > 0
    ensures alpha == EndAlpha(a[..], b[..], gamma)
  {
    ghost var sa, sb := a[..], b[..];
    var lo, hi := Max(0, gamma - b.Length), Min(a.Length, gamma);
    while lo + 1 != hi
      invariant SearchRange(sa, sb, gamma, lo, hi)
      invariant EndSearch(sa, sb, gamma, lo, hi) == EndAlpha(sa, sb, gamma)
      decreases hi - lo
    {
      var alpha' := (lo + hi) / 2;
      var beta' := gamma - alpha';
      EndTurn(sa, sb, gamma, lo, hi, alpha');
      if a[alpha'] < b[beta'] { lo := alpha'; } else { hi := alpha'; }
    }
    if a[lo] <= b[gamma - hi] { alpha := hi; } else { alpha := lo; }
  }

  method FindCut(a: array<int>, b: array<int>, myid: nat, nThreads: nat) returns (c: Cut)
    requires MergeInputs(a[..], b[..], nThreads) && myid < nThreads
    ensures c == ThreadCut(a[..], b[..], nThreads, myid)
  {
    ThreadRanks(a[..], b[..], nThreads, myid);
    var myAlpha, myBeta, nextAlpha, nextBeta := 0, 0, a.Length, b.Length;
    if myid > 0 {
      var gamma := Gamma(a[..], b[..], nThreads, myid);
      myAlpha := FindStart(a, b, gamma);
      myBeta := gamma - myAlpha;
    }
    if myid < nThreads - 1 {
      var gamma := Gamma(a[..], b[..], nThreads, myid + 1);
      nextAlpha := FindEnd(a, b, gamma);
      nextBeta := gamma - nextAlpha;
    }
    c := Cut(myAlpha, myBeta, nextAlpha, nextBeta);
  }

  method MergeCut(a: array<int>, b: array<int>, dest: array<int>, d: nat, c: Cut)
    requires dest != a && dest != b && GoodCut(a[..], b[..], c)
    requires d + c.Rank() + |CutMerge(a[..], b[..], c)| <= dest.Length
    modifies dest
    ensures dest[..] == Stored(old(dest[..]), d + c.Rank(), CutMerge(old(a[..]), old(b[..]), c),
                               |CutMerge(old(a[..]), old(b[..]), c)|)
  {
    var desti := c.alpha + c.beta;
    MergeArraysUnalignedNosse(a, c.alpha, b, c.beta, dest, d + desti, c.Size1(), c.Size2());
  }

  lemma StoredIsRun(before: seq<int>, d: nat, s: seq<int>)
    requires d + |s| <= |before|
    ensures forall w :: w in KeyProgram(0, d, s) ==> InBounds(w, [before])
    ensures RunAlone([before], KeyProgram(0, d, s)) == [Stored(before, d, s, |s|)]
  {
    RunKeys([before], 0, d, s);
    assert s[..|s|] == s;
  }

  lemma CutRunsAlone(a: seq<int>, b: seq<int>, c: Cut, before: seq<int>, d: nat)
    requires Sorted(a) && Sorted(b) && GoodCut(a, b, c) && d + |a| + |b| <= |before|
    ensures d + c.Rank() + |CutMerge(a, b, c)| <= |before|
    ensures forall w :: w in CutProgram(a, b, c, 0, d) ==> InBounds(w, [before])
    ensures RunAlone([before], CutProgram(a, b, c, 0, d))
         == [Stored(before, d + c.Rank(), CutMerge(a, b, c), |CutMerge(a, b, c)|)]
  {
    KeysInside(a, b, c, |before|, d, c.Rank(), CutMerge(a, b, c));
    KeysRunAlone(before, d, c.Rank(), CutMerge(a, b, c), CutProgram(a, b, c, 0, d));
  }

  lemma KeysInside(a: seq<int>, b: seq<int>, c: Cut, size: nat, d: nat, rank: int, keys: seq<int>)
    requires Sorted(a) && Sorted(b) && GoodCut(a, b, c) && d + |a| + |b| <= size
    requires rank == c.Rank() && keys == CutMerge(a, b, c)
    ensures 0 <= rank && d + rank + |keys| <= size
  {
    CutKeys(a, b, c, Merge(a, b), rank, keys);
  }

  lemma KeysRunAlone(before: seq<int>, d: nat, rank: nat, keys: seq<int>, p: Program)
    requires d + rank + |keys| <= |before| && p == KeyProgram(0, d + rank, keys)
    ensures forall w :: w in p ==> InBounds(w, [before])
    ensures RunAlone([before], p) == [Stored(before, d + rank, keys, |keys|)]
  {
    StoredIsRun(before, d + rank, keys);
  }

  /** One thread of the parallel merge: two searches, then its slice. Running it
      alone performs exactly the thread's program of stores. */
  method MergeArraysNoSse(a: array<int>, b: array<int>, dest: array<int>, d: nat, myid: nat, nThreads: nat)
    requires dest != a && dest != b
    requires Sorted(a[..]) && Sorted(b[..]) && MergeInputs(a[..], b[..], nThreads) && myid < nThreads
    requires d + a.Length + b.Length <= dest.Length
    modifies dest
    ensures forall w :: w in ThreadProgram(old(a[..]), old(b[..]), nThreads, myid, 0, d) ==>
            InBounds(w, [old(dest[..])])
    ensures [dest[..]] == RunAlone([old(dest[..])], ThreadProgram(old(a[..]), old(b[..]), nThreads, myid, 0, d))
  {
    ThreadCutGood(a[..], b[..], nThreads, myid);
    CutRunsAlone(a[..], b[..], ThreadCut(a[..], b[..], nThreads, myid), dest[..], d);
    var c := FindCut(a, b, myid, nThreads);
    MergeCut(a, b, dest, d, c);
  }
}
