/** The optional value used for the preprocessor's `Option` slots and parse results. */
module Wrappers {

  datatype Option<+T> = None | Some(value: T)
}
