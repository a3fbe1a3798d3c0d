/** Optional values, used for the Python calls that either produce a value or raise. */
module Wrappers {
  datatype Option<+T> = None | Some(value: T)
}
