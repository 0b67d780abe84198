/** The usual optional value, used for "pointer or NULL" results. */
module Wrappers {
  datatype Option<+T> = None | Some(value: T)
}
