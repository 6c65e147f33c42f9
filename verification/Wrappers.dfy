/** Optional values, for nullable columns. */
module Wrappers {
  datatype Option<+T> = None | Some(value: T)
}
