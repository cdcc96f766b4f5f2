/** The optional value used throughout the model for "no result" (a C early
    return, a JavaScript `null`). */
module Wrappers {

  datatype Option<+T> = None | Some(value: T)
}
