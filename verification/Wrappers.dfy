/** Small notions shared by every component of the project. */
module Wrappers {
  datatype Option<+T> = None | Some(value: T)

  type Byte = n: int | 0 <= n < 256

  /** A file path by its parts. */
  type Path = seq<string>

  /** No element stands at two places. */
  ghost predicate Distinct<T>(s: seq<T>) {
    forall i, j :: 0 <= i < j < |s| ==> s[i] != s[j]
  }
}
