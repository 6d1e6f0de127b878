/** Optional values: a JavaScript `undefined` (an absent JSON field, a failed
    `find`, a missing query parameter) is `None`. */
module Wrappers {

  datatype Option<+T> = None | Some(value: T) {

    /** The wrapped value, or `default` when absent. */
    function GetOr(default: T): T {
      match this
      case Some(v) => v
      case None => default
    }
  }
}
