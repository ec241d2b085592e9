/** The optional value used where the program returns a pointer that may be NULL or a position that may be npos. */
module Wrappers {
  datatype Option<+T> = None | Some(value: T)
}
