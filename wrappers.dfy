/** The usual optional-value datatype; `None` plays the role of JavaScript's `null`. */
module Wrappers {

  datatype Option<+T> = None | Some(value: T)
}
