/** Optional values: the model's stand-in for JavaScript `undefined`/`null`
    and Python `None`. */
module Wrappers {
  datatype Option<+T> = None | Some(value: T) {
    function GetOr(default: T): T {
      match this
      case Some(v) => v
      case None => default
    }
  }
}
