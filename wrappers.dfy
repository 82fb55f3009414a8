/** Failure-carrying values used throughout the model in place of Java's
    `null` and exceptions. */
module Wrappers {

  /** A value that may be absent (a Java reference that may be `null`). */
  datatype Option<+T> = None | Some(value: T)

  /** The result of a call that may throw: its value, or what it threw. */
  datatype Result<+T, +E> = Success(value: T) | Failure(error: E)

  /** The result of a check that carries no value when it passes. */
  datatype Outcome<+E> = Pass | Fail(error: E)
}
