/** The optional value returned by lookups: `undefined` in the source becomes None. */
module Wrappers {
  datatype Option<+T> = None | Some(value: T)
}
