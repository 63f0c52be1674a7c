/** Shared value types: machine integers, byte strings and the two ways an
    operation can come back empty-handed. */
module Prelude {

  datatype Option<+T> = None | Some(value: T)

  /** `Err` is a failing instruction: its transaction is rolled back. */
  datatype Result<+T, +E> = Ok(value: T) | Err(error: E) {
    predicate IsFailure() { Err? }

    function PropagateFailure<U>(): Result<U, E>
      requires Err?
    {
      Err(error)
    }

    function Extract(): T
      requires Ok?
    {
      value
    }
  }

  const U16_MAX: int := 0xffff
  const U32_MAX: int := 0xffff_ffff
  const U64_MAX: int := 0xffff_ffff_ffff_ffff
  const U128_MAX: int := 0xffff_ffff_ffff_ffff_ffff_ffff_ffff_ffff

  type U16 = x: int | 0 <= x <= U16_MAX
  type U32 = x: int | 0 <= x <= U32_MAX
  type U64 = x: int | 0 <= x <= U64_MAX
  type U128 = x: int | 0 <= x <= U128_MAX

  type Byte = x: int | 0 <= x < 256
  type Bytes = seq<Byte>
  type Bytes8 = s: Bytes | |s| == 8 witness seq(8, _ => 0)
  type Bytes32 = s: Bytes | |s| == 32 witness seq(32, _ => 0)
  type Bytes64 = s: Bytes | |s| == 64 witness seq(64, _ => 0)

  function Zeros(n: nat): (s: Bytes)
    ensures |s| == n
  {
    seq(n, _ => 0)
  }

  const ZERO32: Bytes32 := Zeros(32)

  /** Account addresses. */
  type Pubkey = Bytes32

  const DEFAULT_PUBKEY: Pubkey := ZERO32
}
