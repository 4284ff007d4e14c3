/** The optional value used wherever the source works with `null`, `undefined`
    or a falsy "no result" signal. */
module Wrappers {

  datatype Option<+T> = None | Some(value: T)
}
