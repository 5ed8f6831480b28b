/** Failure-compatible wrappers used throughout the model. */
module Wrappers {

  /** A value that may be missing: a form field that was not sent, a row a query did not find. */
  datatype Option<+T> = None | Some(value: T) {

    /** The wrapped value, or `default` when there is none. */
    function GetOr(default: T): T
    {
      match this
      case Some(v) => v
      case None => default
    }
  }

  /** The outcome of a request handler: the new state, or the reason nothing was committed. */
  datatype Result<+T, +E> = Ok(value: T) | Err(error: E)
}
