/** The optional value used for JavaScript's `undefined`-or-value and `null`-or-value results. */
module Wrappers {
  datatype Option<+T> = None | Some(value: T)
}
