/** The optional-value type used for collaborator outcomes that may fail. */
module Wrappers {
  datatype Option<+T> = None | Some(value: T)
}
