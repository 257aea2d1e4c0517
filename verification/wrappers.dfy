/** Failure-carrying datatypes shared by every module of the model.
    `None` plays the part of JavaScript's `null`/`undefined`/`NaN` results, and
    `Err` the part of a thrown exception. */
module Wrappers {

  datatype Option<+T> = None | Some(value: T) {
    function GetOr(default: T): T {
      match this
      case Some(v) => v
      case None => default
    }
  }

  datatype Result<+T, +E> = Ok(value: T) | Err(error: E)
}
