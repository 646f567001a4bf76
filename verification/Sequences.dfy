/** Sequences without a repeat. */
module Sequences {
  predicate NoTwice<T(==)>(s: seq<T>) {
    forall i, j | 0 <= i < j < |s| :: s[i] != s[j]
  }
}
