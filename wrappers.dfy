/** The optional value used for lookups that may miss and for readers that may raise. */
module Wrappers {

  datatype Option<T> = None | Some(value: T)

}
