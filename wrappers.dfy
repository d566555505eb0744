/** Optional values: JavaScript's `undefined` where the source reads past the end of an array. */
module Wrappers {

  datatype Option<+T> = None | Some(value: T)
}
