/** The optional value used for a JavaScript `undefined`/`null` result. */
module Wrappers {
  datatype Option<+T> = None | Some(value: T)
}
