/** A value that may be absent: a nil, a zero time, a failed call. */
module Wrappers {
  datatype Option<T> = None | Some(value: T)
}
