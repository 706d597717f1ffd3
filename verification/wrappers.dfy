/** Option and Result values for the JavaScript `null`/`undefined` fields and the
    error returns of the modelled handlers. */
module Wrappers {

  datatype Option<+T> = None | Some(value: T) {
    /** `x || d` for a field that is either missing or present. */
    function GetOr(default: T): T {
      match this
      case Some(v) => v
      case None => default
    }
  }

  /** A JSON field that can be left out, set to `null`, or set to a value. */
  datatype Nullable<+T> = Absent | Null | Present(value: T)

  datatype Result<+R, +E> = Ok(value: R) | Err(error: E)
}
