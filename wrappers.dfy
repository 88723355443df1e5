/** The Option datatype used for Python's "value or None" results. */
module Wrappers {

  datatype Option<+T> = None | Some(value: T)

}
