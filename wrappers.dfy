/** Optional values, used for the outcome of a parse or a lookup. */
module Wrappers {

  datatype Option<+T> = None | Some(value: T)
}
