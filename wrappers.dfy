/** A value that may be absent: JavaScript's `undefined`, `null` or `false`
    in the places where the gateway tests a field before using it. */
module Wrappers {

  datatype Option<+T> = None | Some(value: T)
}
