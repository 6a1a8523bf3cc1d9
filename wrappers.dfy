/** Optional values, used where the source tests an argument with isset() or empty(). */
module Wrappers {

  datatype Option<+T> = None | Some(value: T) {

    /** The value if there is one, the default otherwise. */
    function GetOr(default: T): T {
      match this
      case Some(v) => v
      case None => default
    }
  }
}
