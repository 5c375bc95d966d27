/** Failure-compatible wrappers used across the model: `Option` stands for a Go
    reference that may be nil (or a PHP value that may be absent), `Result` for a
    Go `(value, error)` pair. */
module Wrappers {

  datatype Option<+T> = None | Some(value: T) {

    /** The wrapped value, or `default` when absent. */
    function GetOr(default: T): T {
      match this
      case Some(v) => v
      case None => default
    }
  }

  datatype Result<+T, +E> = Success(value: T) | Failure(error: E)
}
