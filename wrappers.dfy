/** Plain wrapper datatypes for optional values and for the outcome of Swift `throws`. */
module Wrappers {

  /** An optional value (Swift's `T?`). */
  datatype Option<+T> = None | Some(value: T)

  /** A computation that either produces a value or fails with an error. */
  datatype Result<+R, +E> = Success(value: R) | Failure(error: E)

  /** The outcome of a throwing Swift function that returns `Void`. */
  datatype Outcome<+E> = Pass | Fail(error: E)
}
