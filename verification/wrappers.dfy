/** Wrappers shared by the model: an optional value (a
    JavaScript `undefined`/`null` or a present value) and the outcome of an
    operation that may throw. */
module Wrappers {

  datatype Option<+T> = None | Some(value: T) {
    function GetOr(default: T): T {
      match this
      case Some(v) => v
      case None => default
    }
  }

  datatype Result<+R, +E> = Success(value: R) | Failure(error: E)
}
