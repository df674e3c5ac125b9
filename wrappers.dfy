/** The optional value used for pieces of the input that may be absent. */
module Wrappers {

  datatype Option<+T> = None | Some(value: T)

}
