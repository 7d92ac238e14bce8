/** Failure-compatible option type shared by every module. */
module Wrappers {

  datatype Option<+T> = None | Some(value: T) {
    /** The value inside Some, or `default` for None. */
    function GetOr(default: T): T {
      match this
      case Some(v) => v
      case None => default
    }
  }
}
