/** Optional values, used wherever the source reads something that may be absent
    (a DOM element that is not mounted, a JSON field that is missing). */
module Wrappers {

  datatype Option<+T> = None | Some(value: T) {

    /** Returns the value in Some, or `default` if None. */
    function GetOr(default: T): T {
      match this
      case Some(v) => v
      case None => default
    }
  }
}
