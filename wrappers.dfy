/** Absent-or-present values: the model of TypeScript's optional (`?:`) fields. */
module Wrappers {

  datatype Option<+T> = None | Some(value: T)
}
