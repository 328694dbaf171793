/** Failure-carrying wrappers shared by every module of the model.
    JavaScript `undefined`/`null` returns become `Option`, thrown `Error`s become
    `Result.Err` / `Outcome.Fail` carrying the error's message. */
module Base {

  datatype Option<T> = None | Some(value: T) {
    /** The wrapped value, or `default` when absent (the JS `x || default` idiom
        for values that are never falsy when present). */
    function GetOr(default: T): T {
      match this
      case Some(v) => v
      case None => default
    }
  }

  /** A computation that either produces a value or throws an `Error` with a message. */
  datatype Result<T> = Ok(value: T) | Err(message: string)

  /** A computation that produces nothing of interest, or throws. */
  datatype Outcome = Pass | Fail(message: string)
}
