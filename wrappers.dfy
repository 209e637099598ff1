/** The optional value used for missing request fields and failed conversions. */
module Wrappers {
  datatype Option<+T> = None | Some(value: T)
}
