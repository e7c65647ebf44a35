/** The optional value used for outcomes that may be missing (a failed
    `sscanf` conversion, a kernel call that did not succeed). */
module Wrappers {

  datatype Option<+T> = None | Some(value: T) {

    /** The value held by Some, or `default` if None. */
    function GetOr(default: T): T {
      match this
      case Some(v) => v
      case None() => default
    }
  }
}
