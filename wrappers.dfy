/** The Option type that stands for a Java reference that may be null. */
module Wrappers {

  datatype Option<+T> = None | Some(value: T)

}
