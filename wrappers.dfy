/** The optional value used for "no match" and for absent query parameters. */
module Wrappers {

  datatype Option<+T> = None | Some(value: T)
}
