/** Option: a JavaScript value that may be absent (undefined or null). */
module Wrappers {

  datatype Option<+T> = None | Some(value: T)

}
