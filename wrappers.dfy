/** The optional value used for absent request fields and for "no reply". */
module Wrappers {

  datatype Option<+T> = None | Some(value: T)
}
