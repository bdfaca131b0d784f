/** The usual optional-value wrapper: a Python value that may be `None`. */
module Wrappers {

  datatype Option<+T> = None | Some(value: T)
}
