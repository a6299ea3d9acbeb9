/** The optional value used wherever the source returns `None` or a library call may fail. */
module Wrappers {

  datatype Option<+T> = None | Some(value: T)
}
