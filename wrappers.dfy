// Optional values: JavaScript's `undefined` for props and fields that may be absent.
module Wrappers {

  datatype Option<+T> = None | Some(value: T)

}
