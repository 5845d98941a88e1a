/** Option, for values that the source reports as missing or failed. */
module Wrappers {

  datatype Option<+T> = None | Some(value: T)
}
