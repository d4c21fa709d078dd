/** The optional value used for JavaScript's `undefined`, a failed request and an
    out-of-range array read. */
module Wrappers {

  datatype Option<+T> = None | Some(value: T)
}
