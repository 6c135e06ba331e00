/** An optional value: `None` stands for JavaScript's `undefined` (or `null`) wherever the source reads one. */
module Wrappers {

  datatype Option<T> = None | Some(value: T)
}
