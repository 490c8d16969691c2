/** Failure-carrying result types shared by the whole model. */
module Wrappers {

  /** An optional value: a Java method that may answer `null`. */
  datatype Option<+T> = None | Some(value: T)

  /** A value or the error a Java method would have thrown instead. */
  datatype Result<+R, +E> = Success(value: R) | Failure(error: E)

  /** Success or an error, for operations whose Java form returns `void`. */
  datatype Outcome<+E> = Pass | Fail(error: E)
}
