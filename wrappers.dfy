/** Optional values: a tile that may be missing, a frame buffer a context may not attach. */
module Wrappers {
  datatype Option<+T> = None | Some(value: T)
}
