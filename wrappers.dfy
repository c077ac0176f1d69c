/** The optional value used wherever the handler may find nothing. */
module Wrappers {

  datatype Option<+T> = None | Some(value: T)
}
