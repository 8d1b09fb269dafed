/** The optional-value datatype used wherever the Go code relies on a nil
    slice, a nil map, a missing JSON field or a scan that may fail. */
module Wrappers {

  datatype Option<+T> = None | Some(value: T) {

    /** Returns the value held in Some, or the default when None. */
    function GetOr(default: T): T {
      match this
      case Some(v) => v
      case None => default
    }
  }
}
