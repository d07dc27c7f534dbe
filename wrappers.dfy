/** The optional value used where the source signals "not found". */
module Wrappers {

  datatype Option<+T> = None | Some(value: T)
}
