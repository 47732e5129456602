/** Failure-carrying values shared by every module of the model. */
module Wrappers {

  /** Python's `X | None`. */
  datatype Option<+T> = None | Some(value: T) {
    function GetOr(default: T): T {
      match this
      case Some(v) => v
      case None => default
    }
  }

  /** A value, or the message of the exception the source raises instead. */
  datatype Result<+T> = Ok(value: T) | Err(error: string)
}
