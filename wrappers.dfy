/** The optional value of JavaScript: `undefined`/`null` is None, anything else is Some. */
module Wrappers {

  datatype Option<+T> = None | Some(value: T)
}
