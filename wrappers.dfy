/** Option and outcome types standing in for C# null and thrown exceptions. */
module Wrappers {

  /** A value that may be absent; None models a C# null. */
  datatype Option<+T> = None | Some(value: T)

  /** A computed value, or the reason it could not be computed. */
  datatype Result<+R, +E> = Success(value: R) | Failure(error: E)

  /** A call that either returned normally or threw. */
  datatype Outcome<+E> = Pass | Fail(error: E)
}
