/** Failure-carrying wrappers shared by the other modules. */
module Outcomes {

  /** A value that may be absent, such as the number parsed out of a message. */
  datatype Option<+T> = None | Some(value: T)

  /** Either a computed value or the error that stopped the computation. */
  datatype Result<+R, +E> = Success(value: R) | Failure(error: E)
}
