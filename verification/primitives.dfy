/**
 * Fixed-width integers of the 64-bit Rust target the interpreter is built for,
 * and the outcomes a Rust function can have: a value, a returned error, or a panic.
 */
module Primitives {

  const U8_LIMIT: int := 0x100
  const U32_LIMIT: int := 0x1_0000_0000
  const USIZE_LIMIT: int := 0x1_0000_0000_0000_0000

  type u8 = x: int | 0 <= x < 0x100
  type u32 = x: int | 0 <= x < 0x1_0000_0000
  type usize = x: int | 0 <= x < 0x1_0000_0000_0000_0000

  /** Why a Rust program stops by panicking instead of returning. */
  datatype PanicReason =
    | IndexOutOfBounds(index: nat, len: nat)  // `v[i]` with `i >= v.len()`
    | ArithmeticOverflow                      // checked `+`/`-` in a debug build

  /** `Result<T, E>` extended with the panic a call may end in. */
  datatype Outcome<+T, +E> =
    | Ok(value: T)
    | Err(error: E)
    | Panic(reason: PanicReason)
}
