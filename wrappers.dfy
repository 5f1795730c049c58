/** Failure-compatible wrapper shared by the coordinate and piece modules. */
module Wrappers {

  /** A value, or `None` where the Java code throws (an index out of range,
      or a move rejected by `validateMovable`). */
  datatype Option<+T> = None | Some(value: T)
}
