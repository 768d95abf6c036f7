/** The optional-value datatype used for absent request fields and timestamps. */
module Wrappers {

  datatype Option<+T> = None | Some(value: T)

}
