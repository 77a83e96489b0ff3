/** A value that may be absent, standing for JavaScript's `null`. */
module Wrappers {
  datatype Option<+T> = None | Some(value: T)
}
