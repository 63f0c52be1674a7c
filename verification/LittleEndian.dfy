/** Fixed-width little-endian integers, as borsh and the account layouts use. */
module LittleEndian {
  import opened Prelude

  function Pow256(n: nat): nat {
    if n == 0 then 1 else 256 * Pow256(n - 1)
  }

  function ToLe(x: nat, width: nat): (b: Bytes)
    ensures |b| == width
  {
    if width == 0 then [] else [x % 256] + ToLe(x / 256, width - 1)
  }

  function FromLe(b: Bytes): nat {
    if b == [] then 0 else b[0] + 256 * FromLe(b[1..])
  }

  lemma {:induction false} FromLeBound(b: Bytes)
    ensures FromLe(b) < Pow256(|b|)
  {
    if b != [] {
      FromLeBound(b[1..]);
    }
  }

  lemma {:induction false} LeRoundTrip(x: nat, width: nat)
    requires x < Pow256(width)
    ensures FromLe(ToLe(x, width)) == x
  {
    if width > 0 {
      LeRoundTrip(x / 256, width - 1);
      assert ToLe(x, width)[1..] == ToLe(x / 256, width - 1);
    }
  }

  lemma {:induction false} LeCanonical(b: Bytes)
    ensures ToLe(FromLe(b), |b|) == b
  {
    if b != [] {
      LeCanonical(b[1..]);
      LowByte(b[0], FromLe(b[1..]));
      ToLeCons(b[0], FromLe(b[1..]), |b| - 1);
      assert b == [b[0]] + b[1..];
    }
  }

  lemma LowByte(low: Byte, rest: nat)
    ensures (low + 256 * rest) % 256 == low && (low + 256 * rest) / 256 == rest
  {}

  lemma ToLeCons(low: Byte, rest: nat, width: nat)
    ensures ToLe(low + 256 * rest, width + 1) == [low] + ToLe(rest, width)
  {
    LowByte(low, rest);
  }

  lemma Widths()
    ensures Pow256(4) == U32_MAX + 1 && Pow256(8) == U64_MAX + 1
  {
    assert Pow256(2) == 0x1_0000;
    assert Pow256(4) == 0x1_0000_0000;
    assert Pow256(6) == 0x1_0000_0000_0000;
  }
}
