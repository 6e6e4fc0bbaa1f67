/** The array code that merges two work items of the queue sort. */
module WqMerge {
  import opened SortedSeqs
  import opened ParallelMerge
  import opened MergeUtils

  lemma StoredWhole(before: seq<int>, m: seq<int>)
    requires |before| == |m|
    ensures Stored(before, 0, m, |m|) == m
  {}

  lemma SliceWhole(s: seq<int>)
    ensures Slice(s, 0, |s|) == s
  {}

  /** Merges two arrays into a new one, by the same three loops as the scalar slice merge. */
  method MergeItems(w0: array<int>, w1: array<int>) returns (anew: array<int>)
    ensures fresh(anew) && anew[..] == Merge(w0[..], w1[..])
  {
    SliceWhole(w0[..]);
    SliceWhole(w1[..]);
    anew := new int[w0.Length + w1.Length];
    StoredWhole(anew[..], Merge(w0[..], w1[..]));
    MergeArraysUnalignedNosse(w0, 0, w1, 0, anew, 0, w0.Length, w1.Length);
  }
}
