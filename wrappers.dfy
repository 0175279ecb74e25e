/** The usual optional-value datatype: a JavaScript field that may be absent. */
module Wrappers {
  datatype Option<+T> = None | Some(value: T)
}
