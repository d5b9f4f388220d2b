/** Failure-carrying result types shared by the bank and the shopping cart. */
module Wrappers {

  datatype Option<+T> = None | Some(value: T)

  datatype Result<+T, +E> = Success(value: T) | Failure(error: E)

  /** A result that carries no value on success. */
  datatype Outcome<+E> = Pass | Fail(error: E)
}
