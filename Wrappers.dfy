/** Failure-carrying wrappers used to model the exceptions and optional
    values of the training framework. */
module Wrappers {

  datatype Option<+T> = None | Some(value: T)

  datatype Result<+R, +E> = Success(value: R) | Failure(error: E)

  /** A check that either passes or raises an error. */
  datatype Outcome<+E> = Pass | Fail(error: E)
}
