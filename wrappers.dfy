/** Option and Result types shared by every module of the model. */
module Wrappers {

  /** A value that may be absent (a Go nil pointer or an unset field). */
  datatype Option<T> = None | Some(value: T)

  /** A Go `(value, error)` pair: exactly one side is meaningful. */
  datatype Result<T, E> = Success(value: T) | Failure(error: E)
}
