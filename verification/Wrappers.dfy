/** Optional values and outcomes that can fail. */
module Wrappers {

  datatype Option<+T> = None | Some(value: T)
}
