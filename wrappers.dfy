/** The optional-value datatype used by the rest of the model. */
module Wrappers {
  datatype Option<+T> = None | Some(value: T)
}
