/** Optional values: a Python dictionary key that may or may not have been written. */
module Wrappers {

  datatype Option<+T> = None | Some(value: T)
}
