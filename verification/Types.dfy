/** Machine integers, identifiers and result types shared by every module. */
module Types {
  const U64_MAX: int := 0xFFFF_FFFF_FFFF_FFFF

  /** Rust's `u64`; arithmetic on it is on `int`, so every overflow has to be ruled out or written out. */
  type u64 = n: int | 0 <= n <= U64_MAX

  type Round = u64
  type Epoch = u64
  type NodeId = nat
  type BlockId = nat
  type Signature = nat

  datatype Option<+T> = None | Some(value: T)

  datatype Result<+T, +E> = Ok(value: T) | Err(error: E)

  /** The result of an operation that returns no value. */
  datatype Outcome<+E> = Pass | Fail(error: E)

  function Max(x: int, y: int): int {
    if x < y then y else x
  }

  function Min(x: int, y: int): int {
    if x < y then x else y
  }

  /** Rust's `saturating_sub` on unsigned integers. */
  function SaturatingSub(x: nat, y: nat): nat {
    if x < y then 0 else x - y
  }
}
