/** Failure-carrying values shared by every module of the model. */
module Wrappers {

  /** A JavaScript value that may be `null`/`undefined`. */
  datatype Option<+T> = None | Some(value: T) {

    /** `x || fallback` on an optional value (the value itself when present). */
    function GetOr(default: T): T {
      match this
      case Some(v) => v
      case None => default
    }
  }

  /** What a call to the hosted backend resolves to: its `data`, or its `error.message`. */
  datatype Response<+T> = Ok(data: T) | Err(message: string)

  /** The `{ success, data | error }` record the store's actions hand back to views. */
  datatype Outcome<+T> = Success(data: T) | Failure(error: string)
}
