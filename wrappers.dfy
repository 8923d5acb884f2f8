/** The optional value used for a node's head and tail (the code's `undefined`). */
module Wrappers {

  datatype Option<+T> = None | Some(value: T)
}
