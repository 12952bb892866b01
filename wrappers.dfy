/** An optional value: a result, or no result at all. */
module Wrappers {

  datatype Option<+T> = None | Some(value: T)
}
