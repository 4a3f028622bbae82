/** Failure-carrying wrappers shared by every module of the model. */
module Wrappers {

  /** A value that may be absent: JavaScript's `undefined`/`null` next to a real value. */
  datatype Option<+T> = None | Some(value: T) {

    /** The wrapped value, or `default` when absent. */
    function GetOr(default: T): T {
      match this
      case Some(v) => v
      case None => default
    }
  }

  /** The outcome of a call into storage or a provider: a value, or an error of type `E`. */
  datatype Result<+R, +E> = Success(value: R) | Failure(error: E)

  /** An HTTP reply: a JSON payload with its status, or an error status with a message. */
  datatype Response<+T> = Ok(status: int, value: T) | Err(status: int, message: string)

  /** JavaScript truthiness of an optional string: present and not the empty string. */
  predicate Truthy(s: Option<string>) {
    s.Some? && s.value != ""
  }
}
