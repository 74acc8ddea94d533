/** Failure-compatible wrappers shared by the model: a Java reference that may be null,
    an operation that returns a value or fails, and one that only passes or fails. */
module Wrappers {

  /** `None` stands for Java's `null` or for `Optional.empty()`. */
  datatype Option<+T> = None | Some(value: T)

  /** A value, or the exception the operation throws instead of returning. */
  datatype Result<+R, +E> = Success(value: R) | Failure(error: E)

  /** A `void` operation: it returns normally, or throws. */
  datatype Outcome<+E> = Pass | Fail(error: E)
}
