/** The optional-value wrapper shared by the theme and lookup models. */
module Wrappers {

  /** A value that may be absent: stands for JavaScript's `null` and
      `undefined` wherever the modelled code reads an optional value. */
  datatype Option<+T> = None | Some(value: T)
}
