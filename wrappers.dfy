/** The optional value used for nullable fields and absent messages. */
module Wrappers {
  datatype Option<T> = None | Some(value: T)
}
