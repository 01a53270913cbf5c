/** Failure-compatible wrappers for the optional values and exceptions of the Java code. */
module Wrappers {

  /** `Optional<T>` / a possibly-null reference. */
  datatype Option<+T> = None | Some(value: T)

  /** A call that either returns a value or throws. */
  datatype Result<+R, +E> = Ok(value: R) | Err(error: E)

  /** A `void` call that either completes or throws. */
  datatype Outcome<+E> = Pass | Fail(error: E)
}
