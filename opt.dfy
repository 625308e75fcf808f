/** Optional values, the model's stand-in for Swift's `T?`. */
module Opt {

  datatype Option<+T> = None | Some(value: T) {

    /** Swift's `x ?? d`. */
    function GetOr(default: T): T {
      match this
      case Some(v) => v
      case None => default
    }
  }
}
