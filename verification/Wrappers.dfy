/** The optional value used wherever the program has a nullable column, field or result. */
module Wrappers {

  datatype Option<+T> = None | Some(value: T)
}
