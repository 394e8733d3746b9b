/** The optional-argument wrapper used for every parameter of check_var that
    defaults to Python's `None`. */
module Wrappers {

  /** A parameter that was either left at its `None` default or given a value. */
  datatype Option<+T> = None | Some(value: T)
}
