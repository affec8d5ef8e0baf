/** Failure-carrying return types shared by every module of the model. */
module Wrappers {

  /** A value that may be absent; in a table cell `None` stands for a missing value (NaN). */
  datatype Option<+T> = None | Some(value: T)

  /** The outcome of an operation that may raise. */
  datatype Result<+T, +E> = Success(value: T) | Failure(error: E)
}
