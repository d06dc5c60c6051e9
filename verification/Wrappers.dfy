/** The optional result used where the source returns an `npos` or an end iterator. */
module Wrappers {
  datatype Option<+T> = None | Some(value: T)
}
