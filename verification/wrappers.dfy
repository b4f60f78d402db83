/** An optional value (Go's nil-able pointer or interface) and a
    value-or-error result (Go's `(T, error)` return pair). */
module Wrappers {

  datatype Option<+T> = None | Some(value: T)

  datatype Result<+T, +E> = Success(value: T) | Failure(error: E)
}
