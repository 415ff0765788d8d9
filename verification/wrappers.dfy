/** Python's None and raised exceptions, as values. */
module Wrappers {

  /** A Python value that may be None. */
  datatype Option<T> = None | Some(value: T)

  /** The outcome of a call that either returns a value or raises. */
  datatype Result<T, E> = Success(value: T) | Failure(error: E)

  /** `x if x is not None else fallback`. */
  function IfNone<T>(x: Option<T>, fallback: T): T {
    match x
    case Some(v) => v
    case None => fallback
  }

  /** Python's `dict.get(key)`: None when the key is absent. */
  function Get<K, V>(m: map<K, Option<V>>, k: K): Option<V> {
    if k in m then m[k] else None
  }
}
