/** Optional values, standing for JavaScript's `null`/`undefined` links. */
module Wrappers {

  datatype Option<+T> = None | Some(value: T)
}
