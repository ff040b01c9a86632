/** The optional value used for nullable references of the system (a handler that may be
    null, a backup directory path that may be null). */
module Wrappers {

  datatype Option<+T> = None | Some(value: T)

}
