/** Option and Result, the two shapes every Go `(value, error)` pair of the model is written in. */
module Wrappers {

  datatype Option<+T> = None | Some(value: T)

  /** A Go `(value, err)` return: `Success(v)` when `err == nil`, `Failure(e)` otherwise. */
  datatype Result<+T, +E> = Success(value: T) | Failure(error: E)
}
