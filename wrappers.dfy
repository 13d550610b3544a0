/** The optional value used for "a recognition event was or was not emitted". */
module Wrappers {

  datatype Option<+T> = None | Some(value: T)
}
