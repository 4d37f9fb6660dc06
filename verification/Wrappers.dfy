/** The optional value that stands for the firmware's NULL or absent results. */
module Wrappers {
  datatype Option<+T> = None | Some(value: T)
}
