/** Option and Result, used for JavaScript's NaN/undefined values and for thrown errors. */
module Wrappers {

  datatype Option<+T> = None | Some(value: T) {
    /** The value if present, otherwise the given default. */
    function GetOr(default: T): T {
      match this
      case Some(v) => v
      case None => default
    }
  }

  /** Success carries a value; Failure stands for an exception the source throws. */
  datatype Result<+T, +E> = Success(value: T) | Failure(error: E)
}
