/** What every part of the model shares. */
module Basics {

  datatype Option<+T> = None | Some(value: T)

  type byte = n: nat | n < 256
}
