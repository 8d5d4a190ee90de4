/** Small shared vocabulary: optional values, bytes and a minimum. */
module Common {

  datatype Option<T> = None | Some(value: T)

  /** An octet, as the elements of a Python `bytes` object. */
  newtype byte = x: int | 0 <= x < 0x100

  function Min(a: int, b: int): int
  {
    if a <= b then a else b
  }
}
