/** Failure-compatible wrappers shared by the calculator modules. */
module Wrappers {

  /** An optional value; `None` stands for a value JavaScript would read as NaN or undefined. */
  datatype Option<+T> = None | Some(value: T)

  /** The outcome of an operation that can be refused. */
  datatype Result<+R, +E> = Success(value: R) | Failure(error: E)
}
