/** Optional values. In the numeric parts of the model `None` stands for JavaScript's NaN
    (an unparseable number); elsewhere it stands for `null`/`undefined`. */
module Wrappers {

  datatype Option<+T> = None | Some(value: T) {

    /** The value, or `default` when there is none (JavaScript's `x || default` for a NaN `x`). */
    function GetOr(default: T): T {
      match this
      case Some(v) => v
      case None => default
    }
  }
}
