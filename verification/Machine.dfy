/** Fixed-width integers with the overflow behaviour of the Rust program
    (release builds keep overflow checks on), and the Option/Result types. */
module Machine {

  datatype Option<+T> = None | Some(value: T)

  datatype Result<+T, +E> = Ok(value: T) | Err(error: E)

  const U64_MAX := 0xFFFF_FFFF_FFFF_FFFF
  const I64_MIN := -0x8000_0000_0000_0000
  const I64_MAX := 0x7FFF_FFFF_FFFF_FFFF

  type u8 = x: int | 0 <= x < 256
  type u64 = x: int | 0 <= x <= U64_MAX
  type i64 = x: int | I64_MIN <= x <= I64_MAX

  /** `u64::checked_add`. */
  function CheckedAdd(a: u64, b: u64): Option<u64> {
    if a + b <= U64_MAX then Some(a + b) else None
  }

  /** `u64::wrapping_add(1)`. */
  function WrappingInc(a: u64): u64 {
    if a == U64_MAX then 0 else a + 1
  }

  /** `a - b` on `i64`: None is the overflow panic that aborts the transaction. */
  function CheckedSub(a: i64, b: i64): Option<i64> {
    if I64_MIN <= a - b <= I64_MAX then Some(a - b) else None
  }
}
