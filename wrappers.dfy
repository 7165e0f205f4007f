/** Optional values, the error type of the package (err.go) and the
    two-way outcome that the extraction functions return. */
module Wrappers {

  datatype Option<+T> = None | Some(value: T) {
    function GetOr(default: T): T {
      match this
      case Some(v) => v
      case None => default
    }
  }

  /** A PromError carries nothing but its message. */
  datatype PromError = PromError(msg: string)

  /** Go's `(value, error)` pair where exactly one side is meaningful. */
  datatype Result<+T> = Ok(value: T) | Err(error: PromError)
}
