/** Failure-carrying result types shared by the modules of this model. */
module Wrappers {

  /** A value that may be absent, as returned by a parser that rejects malformed input. */
  datatype Option<+T> = None | Some(value: T)

  /** The outcome of an operation that either produces a value or reports an error. */
  datatype Result<+R, +E> = Success(value: R) | Failure(error: E)
}
