/** Optional values, used where the source falls back on a sentinel. */
module Wrappers {

  datatype Option<+T> = None | Some(value: T)
}
