/**
 What several modules need.
 */
module Basics {

  datatype Option<+T> = None | Some(value: T)

  /** No element comes twice. */
  predicate NoDup<T(==)>(s: seq<T>) {
    forall i, j :: 0 <= i < j < |s| ==> s[i] != s[j]
  }
}
