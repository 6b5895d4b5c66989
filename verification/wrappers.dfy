/** Option and Result, shared by the model: an optional value and a
    value-or-error outcome. */
module Wrappers {

  datatype Option<+T> = None | Some(value: T) {
    function GetOr(default: T): T {
      match this
      case Some(v) => v
      case None => default
    }
  }

  /** The outcome of a step that can fail: a value, or the error it fails with. */
  datatype Result<+T, +E> = Ok(value: T) | Err(error: E)
}
