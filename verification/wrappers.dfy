/** The optional value used for operations that can fail in the source
    (a Python exception becomes None). */
module Wrappers {

  datatype Option<+T> = None | Some(value: T)
}
