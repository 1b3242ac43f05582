/** The failure-free half of the usual wrapper types. */
module Wrappers {
  datatype Option<+T> = None | Some(value: T)
}
