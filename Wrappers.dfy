/** The Option datatype used for a number parser that can fail. */
module Wrappers {

  datatype Option<+T> = None | Some(value: T)
}
