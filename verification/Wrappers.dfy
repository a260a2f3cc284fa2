/** The optional values of the library (`std::optional`, nullable pointers). */
module Wrappers {
  datatype Option<+T> = None | Some(value: T)
}
