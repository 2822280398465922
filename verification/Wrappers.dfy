/** The value a TypeScript function returns when it may return null. */
module Wrappers {

  datatype Option<+T> = None | Some(value: T)
}
