/** Optional values and Python exceptions, as plain datatypes, and the
    sequence-concatenation facts the ledger proofs share. */
module Wrappers {

  /** A Python value that may be `None`. */
  datatype Option<+T> = None | Some(value: T)

  /** The outcome of a Python call that either returns a value or raises. */
  datatype Raising<+T> = Returned(value: T) | Raised

  /** Concatenation of three sequences regroups to the right. */
  lemma AppendAssoc3<T>(a: seq<T>, b: seq<T>, c: seq<T>)
    ensures a + b + c == a + (b + c)
  {
  }

  /** Concatenation of four sequences regroups to the right. */
  lemma AppendAssoc4<T>(a: seq<T>, b: seq<T>, c: seq<T>, d: seq<T>)
    ensures a + b + c + d == a + (b + c + d)
  {
  }
}
