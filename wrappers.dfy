/** Option and Result, the two failure-carrying types the model uses for
    `null`/`undefined` values and for thrown errors. */
module Wrappers {

  datatype Option<+T> = None | Some(value: T) {
    function GetOr(default: T): T {
      match this
      case Some(v) => v
      case None => default
    }
  }

  /** A service call either returns a value or throws an error whose
      message is what the caller gets to see. */
  datatype Result<+T, +E> = Ok(value: T) | Err(error: E)
}
