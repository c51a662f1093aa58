/** Optional values, used for the fields a request or a document may leave out. */
module Wrappers {

  datatype Option<+T> = None | Some(value: T) {

    function GetOr(default: T): T {
      match this
      case Some(v) => v
      case None => default
    }
  }

  /** The outcome of an operation that either yields a value or throws with a message. */
  datatype Result<+T> = Ok(value: T) | Err(message: string)
}
