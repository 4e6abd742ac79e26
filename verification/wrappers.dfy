/** The optional value used wherever the component reads something that may be absent. */
module Wrappers {

  datatype Option<+T> = None | Some(value: T)
}
