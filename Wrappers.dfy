/** The optional value used for the composer's nullable and optional fields. */
module Wrappers {
  datatype Option<+T> = None | Some(value: T)
}
