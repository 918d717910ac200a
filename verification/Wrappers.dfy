/** Optional values: SQL's nullable columns and Go's nil pointers. */
module Wrappers {
  datatype Option<+T> = None | Some(value: T)
}
