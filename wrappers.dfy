/** The optional value used for JavaScript's `null` results (a missing file name, a failed match). */
module Wrappers {

  datatype Option<+T> = None | Some(value: T)
}
