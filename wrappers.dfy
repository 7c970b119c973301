/** Option, Result and Outcome: the model's stand-ins for None and for a raised exception. */
module Wrappers {

  datatype Option<+T> = None | Some(value: T)

  /** Either the value an operation returns or the error it raises. */
  datatype Result<+R, +E> = Success(value: R) | Failure(error: E)

  /** An operation that returns nothing of interest, or raises. */
  datatype Outcome<+E> = Pass | Fail(error: E)
}
