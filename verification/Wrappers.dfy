/** The absent-or-present datatype used for the nullable and optional values of the source. */
module Wrappers {
  datatype Option<+T> = None | Some(value: T)
}
