/** The optional value used for keys that a walk skips. */
module Wrappers {
  datatype Option<+T> = None | Some(value: T)
}
