/** Swift's `Optional`: the result of a typed accessor that may be absent. */
module Wrappers {

  datatype Option<+T> = None | Some(value: T)
}
