/** An optional value: stands for a JavaScript field or result that may be `undefined`. */
module Wrappers {

  datatype Option<+T> = None | Some(value: T)

}
