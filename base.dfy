/** Machine types and failure wrappers shared by every module of the model. */
module Base {

  const U64_LIMIT: int := 0x1_0000_0000_0000_0000
  const U32_LIMIT: int := 0x1_0000_0000

  /** Rust's `u64`. */
  newtype u64 = x: int | 0 <= x < 0x1_0000_0000_0000_0000

  /** Rust's `u8`. */
  newtype byte = x: int | 0 <= x < 256

  datatype Option<+T> = None | Some(value: T)

  datatype Result<+T, +E> = Ok(value: T) | Err(error: E)

  /** How a Rust call ends: it returns a value, or it panics (an `expect`/`unwrap` on `None`/`Err`). */
  datatype Exit<+T> = Returned(value: T) | Panicked(message: string)
}
