/** The optional value used where the C++ code returns a NULL pointer or leaves an out-parameter unset. */
module Wrappers {

  datatype Option<+T> = None | Some(value: T)
}
