/** Option and Result for the source's null returns and thrown exceptions. */
module Wrappers {

  datatype Option<+T> = None | Some(value: T)

  datatype Result<+R, +E> = Success(value: R) | Failure(error: E)

  /** A result that carries no value: the call either returns normally or throws. */
  datatype Outcome<+E> = Pass | Fail(error: E)
}
