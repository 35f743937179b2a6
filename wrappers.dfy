/** The optional value used wherever the source works with a nullable (`char?`, a null string). */
module Wrappers {

  datatype Option<+T> = None | Some(value: T)
}
