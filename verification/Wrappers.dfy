// Shared result types.
module Wrappers {

  /** A value that may be absent: Python's `T | None`. */
  datatype Option<+T> = None | Some(value: T)
}
