/** The optional value used for "this line does not parse" and "this event is not handled". */
module Wrappers {
  datatype Option<+T> = None | Some(value: T)
}
