/** The optional-value datatype used throughout the model. */
module Wrappers {

  /** A value that may be missing: JavaScript's "undefined" where no value was ever set. */
  datatype Option<+T> = None | Some(value: T)
}
