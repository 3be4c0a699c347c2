/** Option and Result: the nil-able values and the (value, error) returns of the Go code. */
module Wrappers {

  /** A value that may be absent (a Go nil). */
  datatype Option<+T> = None | Some(value: T)

  /** A result that is either a value or an error, for Go's `(T, error)` returns. */
  datatype Result<+T, +E> = Ok(value: T) | Err(error: E)
}
