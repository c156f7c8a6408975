/** The optional value shared by the lookup tables and the capability string. */
module Wrappers {
  datatype Option<T> = None | Some(value: T)
}
