/** The optional value used where the source's metafunctions fail to instantiate. */
module Wrappers {

  datatype Option<+T> = None | Some(value: T)
}
