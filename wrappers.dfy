/** Python's `None` / value, as used by the verdict records and the platform lookup. */
module Wrappers {
  datatype Option<+T> = None | Some(value: T)
}
