/** Optional values, success/failure results, document ids and instants, shared by every
    module of the model. */
module Wrappers {

  /** Document ids (Mongo ObjectIds). */
  type Id = nat
  /** Instants, as milliseconds since the epoch. */
  type Time = int

  /** A value that may be absent (an optional document field, a query parameter). */
  datatype Option<+T> = None | Some(value: T) {
    function GetOr(default: T): T {
      match this
      case Some(v) => v
      case None => default
    }
  }

  /** The outcome of a handler: a value, or the HTTP error it answers with. */
  datatype Result<+T, +E> = Ok(value: T) | Err(error: E)

  /** An error response: its HTTP status code and its `message`, sent with `success: false`. */
  datatype HttpError = HttpError(status: nat, message: string)
}
