/** Option and Result datatypes: the model's stand-ins for C# null and for exceptions. */
module Wrappers {

  /** A value that may be absent; `None` plays the part of a C# null reference. */
  datatype Option<+T> = None | Some(value: T) {

    /** The wrapped value, or `default` when there is none (C#'s `??`). */
    function GetOr(default: T): (r: T)
      ensures Some? ==> r == value
      ensures None? ==> r == default
    {
      match this
      case Some(v) => v
      case None => default
    }
  }

  /** The outcome of an operation that may throw: a value or the exception it throws. */
  datatype Result<+R, +E> = Success(value: R) | Failure(error: E)
}
