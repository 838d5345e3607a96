/** Option and Result datatypes shared by the other modules. */
module Wrappers {

  /** A value that may be missing: a JSON key that is absent, or a Python `None`. */
  datatype Option<+T> = None | Some(value: T) {

    /** Returns the value held in Some, or the given default for None. */
    function GetOr(default: T): T {
      match this
      case Some(v) => v
      case None => default
    }
  }

  /** Either a value or an early end of the computation. */
  datatype Result<+R, +E> = Success(value: R) | Failure(error: E)
}
