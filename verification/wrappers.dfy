/** Optional values and the success-or-error outcome of a request handler. */
module Wrappers {

  /** A value that may be absent: a nullable column or an omitted request field. */
  datatype Option<+T> = None | Some(value: T) {

    /** The value, or `default` when absent (PHP's `??`). */
    function GetOr(default: T): T
    {
      if Some? then value else default
    }
  }

  /** The outcome of a handler: the committed state, or the error that rolled it back. */
  datatype Result<+R, +E> = Success(value: R) | Failure(error: E)
}
