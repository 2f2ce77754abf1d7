/** Optional values, used wherever the source has `undefined` or `null`. */
module Wrappers {

  datatype Option<+T> = None | Some(value: T) {

    function GetOr(default: T): T {
      match this
      case Some(v) => v
      case None => default
    }
  }
}
