/** Sorted sequences of keys, their merge, and the fact every sorting result in
    the library rests on: a multiset of keys has exactly one sorted listing. */
module SortedSeqs {

  ghost predicate Ordered(s: seq<int>, i: int, j: int) {
    0 <= i <= j < |s| ==> s[i] <= s[j]
  }

  ghost predicate Sorted(s: seq<int>) {
    forall i, j :: Ordered(s, i, j)
  }

  lemma SortedPiece(s: seq<int>, i: int, j: int)
    requires Sorted(s) && 0 <= i <= j <= |s|
    ensures Sorted(s[i..j])
  {
    forall p, q ensures Ordered(s[i..j], p, q) { assert Ordered(s, i + p, i + q); }
  }

  lemma SortedTail(s: seq<int>)
    requires Sorted(s) && s != []
    ensures Sorted(s[1..])
    ensures forall y :: y in s ==> s[0] <= y
    ensures forall y :: y in s[1..] ==> s[0] <= y
  {
    SortedPiece(s, 1, |s|);
    assert s[1..|s|] == s[1..];
    forall y | y in s[1..] ensures y in s {}
    forall y | y in s ensures s[0] <= y {
      var k :| 0 <= k < |s| && s[k] == y;
      assert Ordered(s, 0, k);
    }
  }

  lemma LastIsTop(run: seq<int>, x: int)
    requires Sorted(run) && (run == [] || run[|run| - 1] <= x)
    ensures forall y :: y in run ==> y <= x
  {
    forall y | y in run ensures y <= x {
      var t :| 0 <= t < |run| && run[t] == y;
      assert Ordered(run, t, |run| - 1);
    }
  }

  lemma SortedPrepend(x: int, s: seq<int>)
    requires Sorted(s) && forall y :: y in s ==> x <= y
    ensures Sorted([x] + s)
  {
    var r := [x] + s;
    forall i, j ensures Ordered(r, i, j) {
      assert Ordered(s, i - 1, j - 1);
      assert i == 0 < j < |r| ==> r[j] in s;
    }
  }

  /** The two-cursor merge of the source: the left head goes first only when it
      is strictly smaller. */
  function Merge(a: seq<int>, b: seq<int>): (m: seq<int>)
    ensures |m| == |a| + |b|
    decreases |a| + |b|
  {
    if a == [] then b
    else if b == [] then a
    else if a[0] < b[0] then [a[0]] + Merge(a[1..], b)
    else [b[0]] + Merge(a, b[1..])
  }

  lemma {:induction false} MergeMultiset(a: seq<int>, b: seq<int>)
    ensures multiset(Merge(a, b)) == multiset(a) + multiset(b)
    decreases |a| + |b|
  {
    if a != [] && b != [] {
      if a[0] < b[0] {
        MergeMultiset(a[1..], b);
        assert a == [a[0]] + a[1..];
      } else {
        MergeMultiset(a, b[1..]);
        assert b == [b[0]] + b[1..];
      }
    }
  }

  lemma MergeMember(a: seq<int>, b: seq<int>, x: int)
    ensures x in Merge(a, b) <==> x in a || x in b
  {
    MergeMultiset(a, b);
    assert x in Merge(a, b) <==> x in multiset(Merge(a, b));
  }

  lemma {:induction false} MergeSorted(a: seq<int>, b: seq<int>)
    requires Sorted(a) && Sorted(b)
    ensures Sorted(Merge(a, b))
    decreases |a| + |b|
  {
    if a != [] && b != [] {
      SortedTail(a);
      SortedTail(b);
      var (h, a', b') := if a[0] < b[0] then (a[0], a[1..], b) else (b[0], a, b[1..]);
      MergeSorted(a', b');
      forall y | y in Merge(a', b') ensures h <= y { MergeMember(a', b', y); }
      SortedPrepend(h, Merge(a', b'));
    }
  }

  lemma HeadMultiset(s: seq<int>)
    requires s != []
    ensures multiset(s) == multiset{s[0]} + multiset(s[1..])
  {
    assert s == [s[0]] + s[1..];
  }

  lemma SameHead(s: seq<int>, t: seq<int>)
    requires Sorted(s) && Sorted(t) && multiset(s) == multiset(t) && s != []
    ensures t != [] && s[0] == t[0]
  {
    assert s[0] in multiset(s) && s[0] in t;
    SortedTail(s);
    SortedTail(t);
    assert t[0] in multiset(t) && t[0] in s;
  }

  lemma {:induction false} SortedUnique(s: seq<int>, t: seq<int>)
    requires Sorted(s) && Sorted(t) && multiset(s) == multiset(t)
    ensures s == t
  {
    if s == [] {
      assert |multiset(t)| == |t|;
    } else {
      SameHead(s, t);
      HeadMultiset(s);
      HeadMultiset(t);
      SortedTail(s);
      SortedTail(t);
      assert multiset(s[1..]) == multiset(s) - multiset{s[0]} == multiset(t[1..]);
      SortedUnique(s[1..], t[1..]);
      assert s == [s[0]] + s[1..] && t == [t[0]] + t[1..];
    }
  }

  /** What the sorts delegated to `std::sort` and `qsort` promise. */
  function Insert(x: int, s: seq<int>): (r: seq<int>)
    ensures multiset(r) == multiset(s) + multiset{x}
    ensures |r| == |s| + 1
  {
    if s == [] then [x]
    else if x <= s[0] then [x] + s
    else assert s == [s[0]] + s[1..]; [s[0]] + Insert(x, s[1..])
  }

  lemma {:induction false} InsertSorted(x: int, s: seq<int>)
    requires Sorted(s)
    ensures Sorted(Insert(x, s))
  {
    if s == [] {
    } else if x <= s[0] {
      SortedTail(s);
      SortedPrepend(x, s);
    } else {
      SortedTail(s);
      var r := Insert(x, s[1..]);
      InsertSorted(x, s[1..]);
      forall y | y in r ensures s[0] <= y {
        assert y in multiset(r);
        assert y in s[1..] || y == x;
      }
      SortedPrepend(s[0], r);
    }
  }

  function Sort(s: seq<int>): (r: seq<int>)
    ensures Sorted(r) && multiset(r) == multiset(s) && |r| == |s|
  {
    if s == [] then []
    else
      assert s == [s[0]] + s[1..];
      InsertSorted(s[0], Sort(s[1..]));
      Insert(s[0], Sort(s[1..]))
  }

  lemma SortFixpoint(s: seq<int>)
    requires Sorted(s)
    ensures Sort(s) == s
  {
    SortedUnique(Sort(s), s);
  }

  lemma SortedConcat(s: seq<int>, t: seq<int>)
    requires Sorted(s) && Sorted(t)
    requires forall x, y :: x in s && y in t ==> x <= y
    ensures Sorted(s + t)
  {
    var r := s + t;
    forall i, j ensures Ordered(r, i, j) {
      if 0 <= i <= j < |r| {
        if j < |s| { assert Ordered(s, i, j); }
        else if |s| <= i { assert Ordered(t, i - |s|, j - |s|); }
        else { assert s[i] in s && t[j - |s|] in t; }
      }
    }
  }
}
