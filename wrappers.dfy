/** The optional value used wherever the source holds `T | null`. */
module Wrappers {

  datatype Option<+T> = None | Some(value: T)
}
