/** Failure-compatible wrappers used across the model: an optional value (a Go
    pointer that may be nil) and a value-or-error result (a Go `(T, error)` pair). */
module Wrappers {

  datatype Option<+T> = None | Some(value: T)

  datatype Result<+T, +E> = Success(value: T) | Failure(error: E)
}
