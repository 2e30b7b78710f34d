/** An optional value, which Go writes as nil, a missing map key or a second result; lists without repeats. */
module Wrappers {

  datatype Option<+T> = None | Some(value: T)

  predicate Unique<T(==)>(s: seq<T>) { forall i, j :: 0 <= i < j < |s| ==> s[i] != s[j] }

}
