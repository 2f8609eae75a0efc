/** The optional value used wherever the component reads something that may be null or undefined. */
module Wrappers {

  datatype Option<+T> = None | Some(value: T)
}
