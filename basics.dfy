/** Values that may be absent, outcomes that may have failed, and sequences without repetitions. */
module Basics {

  /** A value or Java's `null`. */
  datatype Option<+T> = None | Some(value: T)

  /** The outcome of a step that can throw: the value, or the exception it threw. */
  datatype Result<+T, +E> = Ok(value: T) | Err(error: E)

  /** No element occurs twice. */
  predicate Distinct<T(==)>(s: seq<T>) {
    forall i, j :: 0 <= i < j < |s| ==> s[i] != s[j]
  }
}
