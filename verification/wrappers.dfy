/** Failure-carrying values shared by the rest of the model: an optional value
    (a JavaScript `undefined`/`null` versus a present value) and a result that
    is either a value or the error a call would throw. */
module Wrappers {

  datatype Option<+T> = None | Some(value: T) {

    /** The value when present, `default` otherwise (JavaScript's `v ?? default`). */
    function GetOr(default: T): T {
      match this
      case Some(v) => v
      case None => default
    }
  }

  datatype Result<+T, +E> = Ok(value: T) | Err(error: E)
}
