/** The stock optional value, used where the program has a nil pointer, a zero time or an error return. */
module Wrappers {

  datatype Option<+T> = None | Some(value: T)
}
