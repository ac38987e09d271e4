/** Optional values, for the source's None. */
module Wrappers {

  datatype Option<+T> = None | Some(value: T)
}
