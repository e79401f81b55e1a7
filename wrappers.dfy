/** Option: the value a Python expression yields, or None where it raises or returns None. */
module Wrappers {
  datatype Option<+T> = None | Some(value: T)
}
