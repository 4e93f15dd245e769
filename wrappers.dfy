/** The optional value used throughout the model (a missing party, a missing leader, ...). */
module Wrappers {
  datatype Option<+T> = None | Some(value: T)
}
