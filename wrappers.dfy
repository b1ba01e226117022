/** The optional value the source spells as `null` (or `undefined`) beside a real value. */
module Wrappers {
  datatype Option<+T> = None | Some(value: T)
}
