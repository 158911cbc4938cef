/** Optional values, used where the Python source has `None`. */
module Wrappers {
  datatype Option<+T> = None | Some(value: T)
}
