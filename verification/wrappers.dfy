/** Optional values and handler results shared by every module of the model.

    A request handler of the platform either answers with a success payload
    or with an HTTP error status; `Result` carries the payload or the status.
 */
module Wrappers {

  /** A value that may be missing (a JavaScript `null`/`undefined` field). */
  datatype Option<+T> = None | Some(value: T) {

    /** The wrapped value, or `default` when there is none. */
    function GetOr(default: T): T {
      match this
      case Some(v) => v
      case None => default
    }
  }

  /** The error statuses the handlers answer with. */
  datatype Code = BadRequest | Forbidden | NotFound | InternalError {

    /** The numeric HTTP status sent to the client. */
    function Status(): nat {
      match this
      case BadRequest => 400
      case Forbidden => 403
      case NotFound => 404
      case InternalError => 500
    }
  }

  /** The outcome of a handler: a payload or an error status. */
  datatype Result<+T> = Ok(value: T) | Err(code: Code) {

    predicate IsFailure() {
      Err?
    }

    function PropagateFailure<U>(): Result<U>
      requires Err?
    {
      Err(code)
    }

    function Extract(): T
      requires Ok?
    {
      value
    }
  }

  /** A three-way partial-update field: leave as is, store null, or store a value. */
  datatype Patch<+T> = Keep | SetNull | SetTo(value: T)
}
