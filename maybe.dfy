/** Optional values and results with an error message, shared by every module. */
module Maybe {

  /** A value that may be missing: JavaScript's null/undefined, Python's None. */
  datatype Option<+T> = None | Some(value: T) {
    function GetOr(default: T): T {
      match this
      case Some(v) => v
      case None => default
    }
  }

  /** The outcome of an operation that may throw: `Err` carries the error text. */
  datatype Result<+T> = Ok(value: T) | Err(message: string)
}
