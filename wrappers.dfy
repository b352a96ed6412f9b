/** Option, used for Go's nil-able interface values and for absent JSON keys. */
module Wrappers {
  datatype Option<T> = None | Some(value: T) {
    predicate IsFailure() { None? }
    function PropagateFailure<U>(): Option<U> requires None? { None }
    function Extract(): T requires Some? { value }
  }
}
