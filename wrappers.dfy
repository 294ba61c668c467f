/** The optional value used for every lookup that may come back empty-handed. */
module Wrappers {
  datatype Option<+T> = None | Some(value: T)
}
