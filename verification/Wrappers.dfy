/** The optional value shared by every component: Python's `None`, JavaScript's `null` and `undefined`. */
module Wrappers {
  datatype Option<+T> = None | Some(value: T)
}
