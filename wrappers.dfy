/** The optional value used for Python operations that can raise. */
module Wrappers {

  datatype Option<+T> = None | Some(value: T)
}
