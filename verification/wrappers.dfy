/** Failure-carrying values shared by the parser model. */
module Wrappers {

  /** A value that may be absent (Go's nil pointer, or a scan that produced nothing). */
  datatype Option<+T> = None | Some(value: T)

  /** A value or the error that prevented it (Go's `(T, error)` pair). */
  datatype Result<+T, +E> = Ok(value: T) | Err(error: E)
}
