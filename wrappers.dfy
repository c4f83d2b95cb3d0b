/** Optional values and results with an error, shared by every module of the model. */
module Wrappers {

  /** Python's `Optional[T]`: `None` or a value. */
  datatype Option<T> = None | Some(value: T) {
    function GetOr(default: T): T {
      match this
      case Some(v) => v
      case None => default
    }
  }

  /** The outcome of an operation that raises `error` instead of returning a value. */
  datatype Result<T, E> = Ok(value: T) | Err(error: E)
}
