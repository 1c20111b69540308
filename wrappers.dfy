/** Optional values, used for lookups that can miss and for fallible reads. */
module Wrappers {
  datatype Option<T> = None | Some(value: T)
}
