/** A value that may be missing: a failed conversion, an absent argument, a thrown exception. */
module Wrappers {
  datatype Option<+T> = None | Some(value: T)
}
