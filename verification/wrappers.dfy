/** Optional values, the model's stand-in for Swift optionals and Python `None`. */
module Wrappers {

  datatype Option<+T> = None | Some(value: T) {

    /** Returns the wrapped value, or `default` when there is none (`??` in Swift, `.get(k, d)` in Python). */
    function GetOr(default: T): T {
      match this
      case Some(v) => v
      case None => default
    }
  }
}
