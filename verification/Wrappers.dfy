/** Optional values, for Go's comma-ok results and nil pointers. */
module Wrappers {
  datatype Option<+T> = None | Some(value: T)
}
