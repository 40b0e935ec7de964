/** A JavaScript value that may be null or undefined. */
module Nullable {

  datatype Option<+T> = None | Some(value: T)
}
