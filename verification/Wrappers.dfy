/** The one optional value the modules share. */
module Wrappers {
  datatype Option<+T> = None | Some(value: T)
}
