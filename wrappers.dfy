/** The optional value used for "no match" and for the absent pending target. */
module Wrappers {
  datatype Option<+T> = None | Some(value: T)
}
