/** Integer fields packed in byte strings: unsigned little- and big-endian
    values (`int.from_bytes`, `struct.unpack`), two's complement, and the
    encoders that invert them. */
module Bytes {

  /** One element of a Python `bytes` value. */
  type uint8 = x: int | 0 <= x < 0x100

  /** A Bluetooth company identifier, which the advertisement carries in 16 bits. */
  type uint16 = x: int | 0 <= x < 0x1_0000

  /** 256 to the power n: the number of values an n-byte field can hold. */
  function Pow256(n: nat): (r: nat)
    ensures r >= 1
  {
    if n == 0 then 1 else 256 * Pow256(n - 1)
  }

  lemma Pow256Values()
    ensures Pow256(1) == 0x100 && Pow256(2) == 0x1_0000 && Pow256(4) == 0x1_0000_0000
  {
    assert Pow256(2) == 256 * Pow256(1);
    assert Pow256(3) == 256 * Pow256(2);
    assert Pow256(4) == 256 * Pow256(3);
  }

  /** The unsigned value of `s`, least significant byte first. */
  function UIntLE(s: seq<uint8>): (r: nat)
    ensures r < Pow256(|s|)
  {
    if s == [] then 0 else s[0] + 256 * UIntLE(s[1..])
  }

  /** The unsigned value of `s`, most significant byte first. */
  function UIntBE(s: seq<uint8>): (r: nat)
    ensures r < Pow256(|s|)
  {
    if s == [] then 0 else 256 * UIntBE(s[..|s| - 1]) + s[|s| - 1]
  }

  /** The n-byte little-endian encoding of x. */
  function ToLE(x: nat, n: nat): (s: seq<uint8>)
    requires x < Pow256(n)
    ensures |s| == n && UIntLE(s) == x
  {
    if n == 0 then [] else [x % 256] + ToLE(x / 256, n - 1)
  }

  /** Reading a field and writing it back gives the same bytes. */
  lemma {:induction false} ToLEOfUIntLE(s: seq<uint8>)
    ensures ToLE(UIntLE(s), |s|) == s
  {
    if s != [] {
      ToLEOfUIntLE(s[1..]);
      SplitByte(s[0], UIntLE(s[1..]));
    }
  }

  /** A low byte plus 256 times the rest splits back into the byte and the rest. */
  lemma SplitByte(low: uint8, high: nat)
    ensures (low + 256 * high) % 256 == low && (low + 256 * high) / 256 == high
  { }

  /** The two's-complement reading of an n-byte unsigned value. */
  function Signed(u: nat, n: nat): (v: int)
    requires 0 < n && u < Pow256(n)
    ensures 0 <= 2 * v + Pow256(n) && 2 * v < Pow256(n)
    ensures v == u || v == u - Pow256(n)
  {
    if 2 * u >= Pow256(n) then u - Pow256(n) else u
  }

  /** The n-byte two's-complement pattern of v, inverse of Signed. */
  function Unsigned(v: int, n: nat): (u: nat)
    requires 0 < n && 0 <= 2 * v + Pow256(n) && 2 * v < Pow256(n)
    ensures u < Pow256(n) && Signed(u, n) == v
  {
    if v < 0 then v + Pow256(n) else v
  }

  /** Every n-byte pattern is the encoding of its signed reading. */
  lemma UnsignedOfSigned(u: nat, n: nat)
    requires 0 < n && u < Pow256(n)
    ensures Unsigned(Signed(u, n), n) == u
  { }
}
