/** Types and sequence facts shared by every component. */
module Prelude {

  datatype Option<+T> = None | Some(value: T)

  /** No two positions hold the same element. */
  ghost predicate Distinct<T>(s: seq<T>)
  {
    forall i, j :: 0 <= i < j < |s| ==> s[i] != s[j]
  }
}
