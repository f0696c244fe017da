/** Optional values: Java's nullable references and `Optional` both become `Option`. */
module Wrappers {

  datatype Option<+T> = None | Some(value: T)

  /** The outcome of one unit of work: it completes, or it throws and its transaction rolls back. */
  datatype Outcome = Done | Failed

  /** Concatenation regroups freely; stated once so that proofs about long traces can ask for it. */
  lemma ConcatAssoc<T>(x: seq<T>, y: seq<T>, z: seq<T>)
    ensures x + (y + z) == (x + y) + z
  {
  }
}
