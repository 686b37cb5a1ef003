/** Optional values, used for the Python `None` the scripts test against. */
module Wrappers {

  datatype Option<+T> = None | Some(value: T)
}
