/** The optional value used for `Option<T>` in the scheduler. */
module Wrappers {
  datatype Option<+T> = None | Some(value: T)
}
