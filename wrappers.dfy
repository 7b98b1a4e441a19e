/** Failure-carrying results: the Python source signals failures with exceptions,
    which the model returns as values instead. */
module Wrappers {

  /** The outcome of an operation that either produces a value or raises an error. */
  datatype Result<+T, +E> = Success(value: T) | Failure(error: E)

  /** The outcome of an operation that returns nothing or raises an error. */
  datatype Outcome<+E> = Pass | Fail(error: E)

  /** An optional argument: Python's `None` or a value. */
  datatype Option<+T> = None | Some(value: T)
}
