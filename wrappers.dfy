/** Go's nullable pointers and `(value, error)` returns, as values. */
module Wrappers {

  /** A Go pointer: `None` is nil, `Some(v)` points to `v`. */
  datatype Option<+T> = None | Some(value: T)

  /** A Go `(value, error)` pair: exactly one of the two is meaningful. */
  datatype Result<+T> = Ok(value: T) | Err(error: string)
}
