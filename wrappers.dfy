/** Failure-carrying values: Go's (value, error) pairs and nil pointers. */
module Wrappers {

  datatype Option<+T> = None | Some(value: T)

  /** A Go `(T, error)` return: either a value or an error, never both. */
  datatype Result<+T, +E> = Success(value: T) | Failure(error: E)
}
