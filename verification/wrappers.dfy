/** Option and Result, the two failure-carrying datatypes the model uses for
    Python's `None` results and raised exceptions. */
module Wrappers {

  datatype Option<+T> = None | Some(value: T) {
    function GetOr(default: T): T {
      match this
      case Some(v) => v
      case None => default
    }
  }

  /** `Failure` stands for an exception the source raises; `error` is its message or kind. */
  datatype Result<+T, +E> = Success(value: T) | Failure(error: E)
}
