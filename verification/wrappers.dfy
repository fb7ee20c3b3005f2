/** Small failure-carrying wrapper used across the model. */
module Wrappers {

  /** A value that may be absent: a missing request key, a failed call. */
  datatype Option<+T> = None | Some(value: T)
}
