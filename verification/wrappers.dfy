/** Failure-carrying datatypes shared by every module of the model. */
module Wrappers {

  /** An optional value: Python's `None` or a present value. */
  datatype Option<+T> = None | Some(value: T) {

    /** The present value, or `default` when there is none. */
    function GetOr(default: T): T {
      match this
      case Some(v) => v
      case None => default
    }
  }

  /** Either a value or the error that stopped the computation (an exception, an HTTP error). */
  datatype Result<+T, +E> = Ok(value: T) | Err(error: E)
}
