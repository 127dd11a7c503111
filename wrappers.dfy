/** The optional value used for the receiver's `None`-able fields. */
module Wrappers {
  datatype Option<+T> = None | Some(value: T)
}
