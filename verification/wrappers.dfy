/** What several modules need: a value that may be missing, and a law of sequences. */
module Wrappers {
  datatype Option<T> = None | Some(value: T)

  /** Concatenation is associative. */
  lemma Joins<T>(x: seq<T>, y: seq<T>, z: seq<T>)
    ensures (x + y) + z == x + (y + z)
  {
  }
}
