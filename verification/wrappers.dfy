/** Failure-compatible wrappers shared by every module of the model. */
module Wrappers {

  /** An optional value: `None` stands for a JavaScript `undefined` or missing field. */
  datatype Option<+T> = None | Some(value: T)

  /** The outcome of an operation that either produces a value or reports why it refused. */
  datatype Result<+R, +E> = Success(value: R) | Failure(error: E)
}
