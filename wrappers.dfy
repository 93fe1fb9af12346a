/** Option and Result, the failure-carrying values used by every module. */
module Wrappers {

  /** A value that may be missing (Python `None`, or a missing `dict.get`). */
  datatype Option<+T> = None | Some(value: T)

  /** A computation that either succeeds or stops with an error, the way a
      Python exception (KeyError, AssertionError, ...) ends a run. */
  datatype Result<+T, +E> = Ok(value: T) | Err(error: E)
}
