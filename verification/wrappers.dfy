/** Option and Result, shaped after the Rust types the monitor is written with. */
module Wrappers {

  /** An optional value (Rust's `Option<T>`). */
  datatype Option<+T> = None | Some(value: T) {

    /** The carried value, or `default` when there is none (`unwrap_or`). */
    function GetOr(default: T): T {
      match this
      case Some(v) => v
      case None => default
    }

    /** Applies `f` to the carried value, if any (`Option::map`). */
    function Map<U>(f: T -> U): Option<U> {
      match this
      case Some(v) => Some(f(v))
      case None => None
    }
  }

  /** A value or an error (Rust's `Result<T, E>`). */
  datatype Result<+T, +E> = Ok(value: T) | Err(error: E)

  /** The unit value, for results that carry no data (`Result<(), String>`). */
  datatype Unit = Unit
}
