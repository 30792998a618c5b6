/** Optional values, for the source's `Option<T>`. */
module Wrappers {
  datatype Option<+T> = None | Some(value: T)
}
