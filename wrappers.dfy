/** Optional values, for the source's `undefined` and for answers that may be absent. */
module Wrappers {

  datatype Option<+T> = None | Some(value: T)
}
