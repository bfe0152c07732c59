/** Small failure-carrying datatypes shared by the model.
    - Option<T>: a JavaScript value that may be `undefined`/`null`.
    - Outcome<T>: what one call into an external service produced, either a
      value or the message of the error it threw. */
module Wrappers {

  datatype Option<+T> = None | Some(value: T) {

    /** The value, or `default` when absent (JavaScript's `??`). */
    function GetOr(default: T): T {
      match this
      case Some(v) => v
      case None => default
    }
  }

  datatype Outcome<+T> = Ok(value: T) | Fail(msg: string) {

    /** Forgets the value, keeping only success or the failure message. */
    function Status(): Outcome<()> {
      match this
      case Ok(_) => Ok(())
      case Fail(m) => Fail(m)
    }
  }
}
