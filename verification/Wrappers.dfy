/** The value-or-nothing type that stands for the source's std::optional. */
module Wrappers {
  datatype Option<+T> = None | Some(value: T)
}
