/** The optional value used wherever the source works with `None` or a missing key. */
module Wrappers {
  datatype Option<+T> = None | Some(value: T)
}
