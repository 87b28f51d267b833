/** Option and Result, the two failure-carrying values used across the model. */
module Wrappers {

  datatype Option<+T> = None | Some(value: T) {
    function GetOr(default: T): T {
      match this
      case Some(v) => v
      case None => default
    }
  }

  /** A computation that either produced a value or raised one of the
      source's exceptions, named by a short message. */
  datatype Result<+R> = Ok(value: R) | Err(error: string)
}
