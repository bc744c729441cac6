/** The optional-value datatype used for nullable fields and optional message properties. */
module Wrappers {
  datatype Option<+T> = None | Some(value: T)
}
