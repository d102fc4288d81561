/** The optional value used for the minimiser's evaluation budget (Python's `None` or an int). */
module Wrappers {

  datatype Option<+T> = None | Some(value: T)
}
