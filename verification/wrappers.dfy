/** Optional values and results with an error, the two shapes every module of this model returns. */
module Wrappers {

  /** A JavaScript value that may be `undefined` or `null`: both are `None` to the `??` operator. */
  datatype Option<+T> = None | Some(value: T) {

    /** `this ?? default` */
    function GetOr(default: T): T {
      match this
      case Some(v) => v
      case None => default
    }

    /** `this ?? other` on two optional values */
    function OrElse(other: Option<T>): Option<T> {
      if Some? then this else other
    }
  }

  /** The value an operation returns, or the exception it throws. */
  datatype Result<+T, +E> = Ok(value: T) | Err(error: E)
}
