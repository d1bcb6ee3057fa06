/** The optional value used for a column a CSV row may lack and for a lookup that may fail. */
module Wrappers {
  datatype Option<+T> = None | Some(value: T)
}
