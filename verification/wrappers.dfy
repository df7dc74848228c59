/** The usual optional value: JavaScript's `undefined`/`null`/`NaN` results become `None`. */
module Wrappers {

  datatype Option<+T> = None | Some(value: T)
}
