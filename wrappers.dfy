/** The optional value used for "no command", "file absent" and "dialog cancelled". */
module Wrappers {

  datatype Option<+T> = None | Some(value: T)

}
