/** Failure-carrying results. A Soroban contract call that panics is aborted by
    the host and all of its writes are rolled back, so every entry point that can
    panic is modelled as returning one of these, with the state left unchanged
    on failure. */
module Wrappers {

  datatype Option<+T> = None | Some(value: T) {
    /** The value, or `default` when absent: Rust's `unwrap_or`. */
    function GetOr(default: T): T {
      match this
      case Some(v) => v
      case None => default
    }
  }

  datatype Result<+R, +E> = Success(value: R) | Failure(error: E)

  /** Result of an entry point that returns nothing (`()` in Rust). */
  datatype Outcome<+E> = Pass | Fail(error: E)
}
