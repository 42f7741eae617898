/** The optional-value datatype used for attributes and look-ups that may be absent. */
module Wrappers {
  datatype Option<+T> = None | Some(value: T)
}
