/**
  Option: the `undefined` / `null` of a lookup that found nothing.
  Result: a value, or the error an operation throws.
*/
module Wrappers {

  datatype Option<+T> = None | Some(value: T) {
    function GetOr(default: T): T {
      match this
      case Some(v) => v
      case None => default
    }
  }

  datatype Result<+T, +E> = Ok(value: T) | Err(error: E)
}
