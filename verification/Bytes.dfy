/** Bytes, and the little-endian unsigned integers used by the hashed encodings and by GGUF files. */
module Bytes {
  import opened Arithmetic

  newtype byte = x: int | 0 <= x < 256

  type bytes = seq<byte>

  const U32_SIZE: nat := 4
  const U64_SIZE: nat := 8
  const U64_LIMIT: nat := 0x1_0000_0000_0000_0000

  /** The number of values that `width` bytes can hold. */
  function Capacity(width: nat): (c: nat)
    ensures c >= 1
  {
    if width == 0 then 1 else 256 * Capacity(width - 1)
  }

  /** `value` in exactly `width` bytes, least significant byte first. */
  function ToLe(value: nat, width: nat): (s: bytes)
    ensures |s| == width
    decreases width
  {
    if width == 0 then [] else [(value % 256) as byte] + ToLe(value / 256, width - 1)
  }

  function FromLe(s: bytes): (n: nat) {
    if s == [] then 0 else s[0] as nat + 256 * FromLe(s[1..])
  }

  /** Byte `k` is the digit of that place to the base 256. */
  lemma {:induction false} ToLeDigit(value: nat, width: nat, k: nat)
    requires k < width
    ensures ToLe(value, width)[k] as nat == value / Capacity(k) % 256
    decreases width
  {
    if k > 0 {
      ToLeDigit(value / 256, width - 1, k - 1);
      DivideTwice(value, Capacity(k - 1));
    }
  }

  lemma DivideTwice(value: nat, place: nat)
    requires place > 0
    ensures value / 256 / place == value / (256 * place)
  {
    var q, r := value / (256 * place), value % (256 * place);
    assert value == 256 * (place * q) + r;
    assert value / 256 == place * q + r / 256;
    assert r / 256 < place;
    QuotientIs(value / 256, place, q);
  }

  lemma {:induction false} FromLeToLe(value: nat, width: nat)
    requires value < Capacity(width)
    ensures FromLe(ToLe(value, width)) == value
    decreases width
  {
    if width == 0 {
    } else {
      assert ToLe(value, width)[1..] == ToLe(value / 256, width - 1);
      FromLeToLe(value / 256, width - 1);
    }
  }

  lemma {:induction false} ToLeFromLe(s: bytes)
    ensures FromLe(s) < Capacity(|s|)
    ensures ToLe(FromLe(s), |s|) == s
  {
    if s == [] {
    } else {
      ToLeFromLe(s[1..]);
      assert FromLe(s) % 256 == s[0] as nat && FromLe(s) / 256 == FromLe(s[1..]);
    }
  }

  lemma U64Capacity()
    ensures Capacity(U64_SIZE) == U64_LIMIT
    ensures Capacity(U32_SIZE) == 0x1_0000_0000
  {
    assert Capacity(2) == 0x1_0000;
    assert Capacity(4) == 256 * 256 * Capacity(2);
    assert Capacity(6) == 256 * 256 * Capacity(4);
    assert Capacity(8) == 256 * 256 * Capacity(6);
  }

  /** Every 64-bit value survives being written and read back. */
  lemma U64RoundTrip(value: nat)
    requires value < U64_LIMIT
    ensures FromLe(ToLe(value, U64_SIZE)) == value
  {
    U64Capacity();
    FromLeToLe(value, U64_SIZE);
  }

  lemma U32RoundTrip(value: nat)
    requires value < 0x1_0000_0000
    ensures FromLe(ToLe(value, U32_SIZE)) == value
  {
    U64Capacity();
    FromLeToLe(value, U32_SIZE);
  }
}
