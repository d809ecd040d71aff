/** The optional value returned by a pattern search that may find nothing. */
module Wrappers {

  datatype Option<+T> = None | Some(value: T) {

    /** The found value, or the given default when nothing was found. */
    function GetOr(default: T): T {
      match this
      case Some(v) => v
      case None => default
    }
  }
}
