/** A value that may be absent: the null pointers of the source. */
module Wrappers {
  datatype Option<T> = None | Some(value: T)
}
