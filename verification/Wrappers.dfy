/** The optional value used wherever the service leaves a field undefined. */
module Wrappers {
  datatype Option<+T> = None | Some(value: T)
}
