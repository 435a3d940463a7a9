/** Optional values: a JavaScript property that may be null, undefined or absent. */
module Wrappers {

  datatype Option<+T> = None | Some(value: T)
}
