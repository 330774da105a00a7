/** Optional values: a stored field that may be absent (`null` in the store). */
module Wrappers {

  datatype Option<+T> = None | Some(value: T)
}
