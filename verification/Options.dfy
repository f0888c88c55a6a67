/** Value types every module shares. */
module Options {
  /** C attributes and pointers that may be NULL. */
  datatype Option<+T> = None | Some(value: T)

  type Octet = x: int | 0 <= x < 256
}
