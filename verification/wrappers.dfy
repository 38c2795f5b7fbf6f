/** Optional values, standing for the source's nullable pointers and "not found" results. */
module Wrappers {

  datatype Option<+T> = None | Some(value: T)
}
