/** Failure-compatible result types used in place of Java's null returns and exceptions. */
module Wrappers {

  /** A value that may be absent: Java's `null` and `Optional.empty()`. */
  datatype Option<+T> = None | Some(value: T)

  /** A value, or the exception Java would have thrown instead of returning it. */
  datatype Result<+T, +E> = Success(value: T) | Failure(error: E)

  /** The outcome of a Java `void` call: normal completion, or the exception it threw. */
  datatype Outcome<+E> = Pass | Fail(error: E)
}
