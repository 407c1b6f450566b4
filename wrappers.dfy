/** The optional-value datatype used for absent properties and failed parses. */
module Wrappers {

  datatype Option<+T> = None | Some(value: T)
}
