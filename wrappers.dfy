/** The optional value used for Python's `None` results and for caught exceptions. */
module Wrappers {
  datatype Option<+T> = None | Some(value: T)
}
