/** Failure-compatible wrapper shared by every module: the source's `null`. */
module Wrappers {

  datatype Option<+T> = None | Some(value: T)
}
