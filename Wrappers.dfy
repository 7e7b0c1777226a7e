/** The Option type used for cells that may be missing and for means of empty columns. */
module Wrappers {
  datatype Option<+T> = None | Some(value: T)
}
