/** Optional values: a marker's owner and the index of the nearest agent. */
module Wrappers {
  datatype Option<+T> = None | Some(value: T)
}
