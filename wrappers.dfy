/** Option and Result, used where the Java code has null or throws. */
module Wrappers {

  /** A value that may be absent; None stands for Java's null. */
  datatype Option<+T> = None | Some(value: T)

  /** A computed value, or the exception the Java expression throws instead. */
  datatype Result<+T, +E> = Success(value: T) | Failure(error: E)
}
