/** The optional result the geometry functions use in place of JavaScript's `null`. */
module Wrappers {

  datatype Option<+T> = None | Some(value: T)
}
