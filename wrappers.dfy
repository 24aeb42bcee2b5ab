/** The absent-or-present value that stands in for the source's nullable pointers. */
module Wrappers {

  datatype Option<+T> = None | Some(value: T)
}
