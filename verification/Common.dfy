/** Notions the components share. */
module Common {
  type byte = x: int | 0 <= x < 256

  datatype Option<T> = None | Some(value: T)

  predicate Distinct<A(==)>(s: seq<A>) {
    forall i, j :: 0 <= i < j < |s| ==> s[i] != s[j]
  }
}
