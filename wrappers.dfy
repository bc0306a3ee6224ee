/** Optional values. `None` stands for Go's `nil`: a nil interface value,
    a nil pointer returned by a parse routine, or a nil slice. */
module Wrappers {

  datatype Option<+T> = None | Some(value: T) {

    /** The held value, or `default` when there is none. */
    function GetOr(default: T): T {
      match this
      case Some(v) => v
      case None => default
    }
  }
}
