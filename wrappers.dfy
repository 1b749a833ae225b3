/** The optional value the source writes as `null` (or reads as `undefined`). */
module Wrappers {
  datatype Option<+T> = None | Some(value: T)
}
