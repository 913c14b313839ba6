/** Option and Result, used where the source returns `null` / `undefined`
    or throws an error that a caller catches. */
module Wrappers {

  datatype Option<+T> = None | Some(value: T) {
    function GetOr(default: T): T {
      match this
      case Some(v) => v
      case None => default
    }
  }

  /** `Failure(message)` stands for a thrown `Error` carrying `message`. */
  datatype Result<+T> = Success(value: T) | Failure(message: string)
}
