/** Option and Result values shared by every module of the model. */
module Wrappers {

  datatype Option<+T> = None | Some(value: T) {
    function GetOr(default: T): T {
      match this
      case Some(v) => v
      case None => default
    }
  }

  /** The outcome of a store operation: the record it produced, or the error it threw. */
  datatype Result<+T, +E> = Success(value: T) | Failure(error: E)
}
