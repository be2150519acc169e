/** Optional values: a NULL reference or a missing symbol-table entry in the compiler. */
module Wrappers {
  datatype Option<+T> = None | Some(value: T)
}
