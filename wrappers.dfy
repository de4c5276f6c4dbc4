/** The optional value used for "no free slot" and for a loop that has not exited. */
module Wrappers {
  datatype Option<+T> = None | Some(value: T)
}
