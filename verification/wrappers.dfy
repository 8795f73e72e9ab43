/** Failure-compatible result types shared by the model. */
module Wrappers {

  /** An optional value. */
  datatype Option<+T> = None | Some(value: T)

  /** Either a computed value or the error that the source raises instead. */
  datatype Result<+T, +E> = Success(value: T) | Failure(error: E)
}
