/** Failure-carrying datatypes shared by the model: a Python `None`/value pair
    becomes an `Option`, a `raise` becomes the `Failure` side of a `Result`. */
module Wrappers {

  datatype Option<+T> = None | Some(value: T) {

    /** Returns the wrapped value, or `default` when there is none. */
    function GetOr(default: T): T {
      match this
      case Some(v) => v
      case None => default
    }
  }

  datatype Result<+R, +E> = Success(value: R) | Failure(error: E)
}
