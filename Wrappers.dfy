/** The optional value used where the source returns `null` or ignores an input. */
module Wrappers {

  datatype Option<+T> = None | Some(value: T)
}
