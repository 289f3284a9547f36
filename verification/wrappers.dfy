module Wrappers {
  datatype Option<+T> = None | Some(value: T)

  type Octet = x: int | 0 <= x < 256
}
