/** The optional value used wherever the application has `T | null` or `T | undefined`. */
module Wrappers {
  datatype Option<T> = None | Some(value: T)
}
