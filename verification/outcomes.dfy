/** Failure-carrying datatypes shared by the whole model. */
module Outcomes {

  /** A value that may be absent: a missing row, a failed parse. */
  datatype Option<+T> = None | Some(value: T)

  /** A computation that either produced a value or failed with an error. */
  datatype Result<+R, +E> = Success(value: R) | Failure(error: E)
}
