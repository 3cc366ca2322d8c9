/** Failure-carrying values used throughout the model: Java's `null` and thrown
    exceptions become `None` and `Failure`. */
module Wrappers {

  /** A value that may be absent (a Java reference that may be null). */
  datatype Option<+T> = None | Some(value: T)

  /** The outcome of a computation that may end in an exception. */
  datatype Result<+T, +E> = Success(value: T) | Failure(error: E)
}
