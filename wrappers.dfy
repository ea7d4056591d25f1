/** The optional value used for "no result" and for "no error raised". */
module Wrappers {

  datatype Option<+T> = None | Some(value: T)
}
