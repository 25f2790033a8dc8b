/** Shared vocabulary: failure datatypes, machine-integer ranges and the saturating operators. */
module Prelude {
  datatype Option<+T> = None | Some(value: T)

  datatype Result<+T, +E> = Ok(value: T) | Err(error: E)

  const U64_MAX: nat := 0xFFFF_FFFF_FFFF_FFFF
  const U128_MAX: nat := 0xFFFF_FFFF_FFFF_FFFF_FFFF_FFFF_FFFF_FFFF
  const U256_MAX: nat :=
    0xFFFF_FFFF_FFFF_FFFF_FFFF_FFFF_FFFF_FFFF_FFFF_FFFF_FFFF_FFFF_FFFF_FFFF_FFFF_FFFF

  type u64 = x: int | 0 <= x <= U64_MAX
  type u128 = x: int | 0 <= x <= U128_MAX
  type u256 = x: int | 0 <= x <= U256_MAX

  function Min(a: int, b: int): int {
    if a < b then a else b
  }

  function Pow2(k: nat): nat {
    if k == 0 then 1 else 2 * Pow2(k - 1)
  }

  /** `saturating_sub` on unsigned integers of any width. */
  function SatSub(a: nat, b: nat): nat {
    if a < b then 0 else a - b
  }

  /** `U256::saturating_add`. */
  function SatAdd256(a: u256, b: u256): u256 {
    if a + b > U256_MAX then U256_MAX else a + b
  }
}
