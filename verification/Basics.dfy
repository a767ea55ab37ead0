/**
 Shared by all modules: a result that may be missing, and sequences without
 repetition.
 */
module Basics {
  /** None is an error return, or a panic of the source. */
  datatype Option<T> = None | Some(value: T)

  predicate Distinct<T(==)>(s: seq<T>) {
    forall i, j :: 0 <= i < j < |s| ==> s[i] != s[j]
  }
}
