/** Fixed-width values and the failure-carrying datatypes every other module uses. */
module Words {
  /** One byte of a frame or an archive. */
  type byte = x: int | 0 <= x < 256

  /** An unsigned 32-bit value. */
  type u32 = x: int | 0 <= x < 0x1_0000_0000

  /** An unsigned 64-bit value: identities, generations, epochs. */
  type u64 = x: int | 0 <= x < 0x1_0000_0000_0000_0000

  /** A token id. */
  type Token = u32

  datatype Option<+T> = None | Some(value: T)

  datatype Result<+T, +E> = Ok(value: T) | Err(error: E)

  function Min(a: int, b: int): int {
    if a <= b then a else b
  }

  function Max(a: int, b: int): int {
    if a >= b then a else b
  }
}
