/** Option, the stand-in for Go's nil-able results and comma-error returns. */
module Wrappers {
  datatype Option<+T> = None | Some(value: T)
}
