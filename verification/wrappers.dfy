/** Option, used for values the handlers may find undefined or null. */
module Wrappers {
  datatype Option<+T> = None | Some(value: T)
}
