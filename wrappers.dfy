/** The optional value used by the key table. */
module Wrappers {
  datatype Option<+T> = None | Some(value: T)
}
