/** Option and Result: the model's stand-ins for Kotlin's nullable results and thrown exceptions. */
module Wrappers {

  /** A value that may be absent (Kotlin `T?`). */
  datatype Option<+T> = None | Some(value: T)

  /** Either a value or the exception that the Kotlin code would have thrown. */
  datatype Result<+T, +E> = Success(value: T) | Failure(error: E)
}
