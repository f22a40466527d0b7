/** Option and Result, the two failure-carrying types the model needs. */
module Wrappers {

  /** Rust's `Option<T>`. */
  datatype Option<+T> = None | Some(value: T) {

    /** `unwrap_or(default)` */
    function GetOr(default: T): T {
      match this
      case Some(v) => v
      case None => default
    }
  }

  /** Rust's `Result<T, E>`: an `Err` returned through `?` ends the whole call. */
  datatype Result<+R, +E> = Success(value: R) | Failure(error: E)
}
