/** The optional-value datatype used for JavaScript's `null` / `undefined`. */
module Wrappers {

  datatype Option<+T> = None | Some(value: T)
}
