/** Optional values and results with an error, shared by the runner and the waypoint tab models. */
module Wrappers {

  /**
   * A value that may be missing. Where JavaScript code treats `undefined`
   * and `null` alike, `None` stands for both.
   */
  datatype Option<+T> = None | Some(value: T) {
    function GetOr(default: T): T {
      match this
      case Some(v) => v
      case None => default
    }
  }

  /** The outcome of an operation that either returns a value or throws. */
  datatype Result<+R, +E> = Success(value: R) | Failure(error: E)
}
