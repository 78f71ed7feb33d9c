/** The optional value used for "no match" and "no bot comment found". */
module Wrappers {
  datatype Option<+T> = None | Some(value: T)
}
