/** Optional values and error returns shared by every module. */
module Wrappers {

  /** The source's `T | null`. */
  datatype Option<+T> = None | Some(value: T)

  /** A value, or the error the source throws. */
  datatype Result<+T, +E> = Ok(value: T) | Err(error: E)

  function GetOr<T>(o: Option<T>, default: T): T {
    match o case Some(v) => v case None => default
  }

  /** JavaScript's `a ?? b` on two optional values. */
  function OrElse<T>(a: Option<T>, b: Option<T>): Option<T> {
    if a.Some? then a else b
  }

  function Lookup<K, V>(m: map<K, V>, k: K): Option<V> {
    if k in m then Some(m[k]) else None
  }

  ghost predicate Distinct<T>(s: seq<T>) {
    forall i, j :: 0 <= i < j < |s| ==> s[i] != s[j]
  }
}
