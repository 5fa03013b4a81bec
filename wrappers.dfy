/** Optional values: a Go pointer that may be nil, a lookup that may miss. */
module Wrappers {
  datatype Option<+T> = None | Some(value: T)
}
