/** The optional value: a Java reference that may be null, or the result of a stream's findFirst(). */
module Wrappers {

  datatype Option<+T> = None | Some(value: T)
}
