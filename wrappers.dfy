/** Option, Result and Outcome: the error returns of the Go code and the
    nullable values of the TypeScript code. */
module Wrappers {

  datatype Option<+T> = None | Some(value: T) {
    function GetOr(default: T): T {
      match this
      case Some(v) => v
      case None => default
    }
  }

  datatype Result<+R, +E> = Success(value: R) | Failure(error: E)

  /** A call that returns only an error (Go `error`, nil on success). */
  datatype Outcome<+E> = Pass | Fail(error: E)
}
