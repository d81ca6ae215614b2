/** The optional value used for storage reads and for the export guard. */
module Wrappers {

  datatype Option<T> = None | Some(value: T)
}
