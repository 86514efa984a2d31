/** Optional values, standing in for AK's Optional and for null pointers. */
module Wrappers {
  datatype Option<+T> = None | Some(value: T)
}
