/** Nullable values and error returns shared by every module of the model. */
module Optional {

  /** A SQL column or a JavaScript value that may be NULL / null / undefined. */
  datatype Option<+T> = None | Some(value: T) {
    function GetOr(default: T): T {
      match this
      case Some(v) => v
      case None => default
    }
  }

  /** The outcome of a request handler: a value, or the error the handler reports. */
  datatype Result<+T, +E> = Ok(value: T) | Err(error: E)
}
