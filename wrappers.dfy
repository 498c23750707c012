/** The conventional optional value, used wherever the source has `null`/`undefined`. */
module Wrappers {
  datatype Option<+T> = None | Some(value: T)
}
