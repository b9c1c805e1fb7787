/** Optional values, for the source's `T | null` fields and returns. */
module Wrappers {
  datatype Option<+T> = None | Some(value: T)
}
