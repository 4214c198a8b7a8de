/** The optional value every component of the model uses for Go's nil. */
module Wrappers {
  datatype Option<+T> = None | Some(value: T)
}
