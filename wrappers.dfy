/** An optional value, for answers a collaborator may or may not give. */
module Wrappers {

  datatype Option<+T> = None | Some(value: T)
}
