/** Option and Result values shared by every module of the interpreter model. */
module Wrappers {

  /** A value that may be absent (TypeScript's `T | undefined`). */
  datatype Option<+T> = None | Some(value: T) {
    function GetOr(default: T): T {
      match this
      case Some(v) => v
      case None => default
    }
  }

  /** Either a value or the error the source returns in its place (`Err<T> = Error | T`). */
  datatype Result<+T, +E> = Ok(value: T) | Err(error: E)
}
