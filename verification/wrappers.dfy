/** The Option type used for Python's `None`-or-value results and for
    platform lookups that may find nothing. */
module Wrappers {
  datatype Option<+T> = None | Some(value: T)
}
