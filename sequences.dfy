/** Sequence helpers shared by the rule and the orchestrator. */
module Sequences {
  function Elements<T>(s: seq<T>): set<T> { set x | x in s }

  predicate NoDuplicates<T(==)>(s: seq<T>) { forall i, k :: 0 <= i < k < |s| ==> s[i] != s[k] }
}
