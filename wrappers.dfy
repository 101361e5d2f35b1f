/** Option and Result, the two failure-carrying shapes used across the model. */
module Wrappers {

  /** `None` stands for Python's `None`. */
  datatype Option<+T> = None | Some(value: T)

  /** `Failure` stands for an exception the source raises and does not catch. */
  datatype Result<+T, +E> = Success(value: T) | Failure(error: E)
}
