/** The optional value used for every criterion that may be unset. */
module Wrappers {

  datatype Option<+T> = None | Some(value: T)
}
