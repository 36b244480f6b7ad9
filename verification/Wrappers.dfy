/** The optional value used where the framework has a null pointer. */
module Wrappers {
  datatype Option<+T> = None | Some(value: T)
}
