/** The optional value used for Python's `x_value=None` default argument. */
module Wrappers {

  datatype Option<+T> = None | Some(value: T)
}
