/** The work items of the queue sort: a stretch of keys and whether it is sorted. */
module Chunks {
  import opened SortedSeqs

  datatype Option<+T> = None | Some(value: T)

  datatype Chunk = Chunk(keys: seq<int>, sorted: bool) {
    /** The flag tells the truth. */
    ghost predicate Honest() { sorted ==> Sorted(keys) }
  }
}
