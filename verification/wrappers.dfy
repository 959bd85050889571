/** Optional values and results with an error, used where the demos return
    nil/None or raise. */
module Wrappers {

  /** A value that may be absent: Swift's `nil`, Python's `None`, Ruby's `nil`. */
  datatype Option<+T> = None | Some(value: T) {

    /** The wrapped value, or `default` when absent. */
    function GetOr(default: T): T {
      match this
      case Some(v) => v
      case None => default
    }
  }

  /** The outcome of an operation that can raise: `Ok` carries the result,
      `Err` the condition the source would raise. */
  datatype Result<+T, +E> = Ok(value: T) | Err(error: E)
}
