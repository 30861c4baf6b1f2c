/** What several of the modules share. */
module Basics {

  datatype Option<T> = None | Some(value: T)

  ghost predicate NoDup(s: seq<nat>) {
    forall i, j :: 0 <= i < j < |s| ==> s[i] != s[j]
  }
}
