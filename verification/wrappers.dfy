module Wrappers {
  /** A value that may be absent: a null pointer, a failed lookup, nobody to wake. */
  datatype Option<+T> = None | Some(value: T)
}
