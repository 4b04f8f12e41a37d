/** The optional value, used where the source has a boost::optional or an iterator that may be end(). */
module Wrappers {
  datatype Option<+T> = None | Some(value: T)
}
