/** Optional values: a JavaScript field or key that may be absent, or a parse that may give NaN. */
module Wrappers {
  datatype Option<+T> = None | Some(value: T) {
    function GetOr(default: T): T {
      match this
      case Some(v) => v
      case None => default
    }
  }
}
