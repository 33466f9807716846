/** Failure-carrying values used in place of Go's `(value, error)` pairs
    and JavaScript's exceptions. */
module Wrappers {

  datatype Option<+T> = None | Some(value: T)

  datatype Result<+T, +E> = Ok(value: T) | Err(error: E)

  /** Go's `m[k]` on a `map[string]string`: the zero value "" for a missing key. */
  function MapGet(m: map<string, string>, k: string): (r: string)
    ensures k !in m ==> r == ""
    ensures k in m ==> r == m[k]
  {
    if k in m then m[k] else ""
  }

  /** No element occurs twice. */
  predicate NoDup<T(==)>(s: seq<T>) {
    forall i, j :: 0 <= i < j < |s| ==> s[i] != s[j]
  }
}
