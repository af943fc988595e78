/** An optional value: JavaScript's `undefined` field, or the NaN of a failed parse. */
module Wrappers {

  datatype Option<+T> = None | Some(value: T)

}
