/** The optional value used for lookups, parses and fallible steps. */
module Wrappers {
  datatype Option<+T> = None | Some(value: T)
}
