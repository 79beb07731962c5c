/** Optional values, the counterpart of Rust's `Option`. */
module Wrappers {

  datatype Option<+T> = None | Some(value: T) {

    /** The contained value, or `default` when absent (Rust's `unwrap_or`). */
    function GetOr(default: T): T {
      match this
      case Some(v) => v
      case None => default
    }
  }
}
