/** The optional value used for the stored token and for server messages. */
module Wrappers {

  datatype Option<+T> = None | Some(value: T)
}
