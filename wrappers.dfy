/** The nullable values of the C source (a NULL `char*`, a missing entry). */
module Wrappers {
  datatype Option<+T> = None | Some(value: T)
}
