/** The optional value the components use for `null`-able state and for lookups that may miss. */
module Wrappers {
  datatype Option<+T> = None | Some(value: T)
}
