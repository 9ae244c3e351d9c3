/** The optional value used wherever the Java code has a value that may be absent. */
module Wrappers {

  datatype Option<+T> = None | Some(value: T)
}
