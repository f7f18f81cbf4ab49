/** Failure-carrying result types shared by the store and the login flow. */
module Wrappers {

  /** A value that may be absent, like a missing dictionary entry. */
  datatype Option<+T> = None | Some(value: T)

  /** The outcome of an operation that can be refused with an error value. */
  datatype Result<+T, +E> = Success(value: T) | Failure(error: E)
}
