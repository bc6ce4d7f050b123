/** The Python string operations the type-B decoder applies to hex text:
    `hex(n)[2:]`, `str.zfill`, `re.findall("..", s)`, list reversal,
    `"".join`, slicing, `bytes.hex()` and `int(s, 16)`. */
module Hex {
  import opened Bytes

  /** 16 to the power n. */
  function Pow16(n: nat): (r: nat)
    ensures r >= 1
  {
    if n == 0 then 1 else 16 * Pow16(n - 1)
  }

  /** The lower-case hex digit of d, as `hex()` and `bytes.hex()` print it. */
  function DigitChar(d: nat): char
    requires d < 16
  {
    if d < 10 then ('0' as int + d) as char else ('a' as int + d - 10) as char
  }

  /** A digit `int(s, 16)` accepts, in either case. */
  predicate IsHexChar(c: char)
  {
    '0' <= c <= '9' || 'a' <= c <= 'f' || 'A' <= c <= 'F'
  }

  predicate IsHexString(s: string)
  {
    forall i | 0 <= i < |s| :: IsHexChar(s[i])
  }

  function DigitValue(c: char): (d: nat)
    requires IsHexChar(c)
    ensures d < 16
  {
    if '0' <= c <= '9' then c as int - '0' as int
    else if 'a' <= c <= 'f' then c as int - 'a' as int + 10
    else c as int - 'A' as int + 10
  }

  /** `int(s, 16)` for a string of hex digits. */
  function ParseHex(s: string): (n: nat)
    requires IsHexString(s)
    ensures n < Pow16(|s|)
  {
    if s == [] then 0 else 16 * ParseHex(s[..|s| - 1]) + DigitValue(s[|s| - 1])
  }

  /** `hex(n)[2:]`: the lower-case digits of n without leading zeros ("0" for zero). */
  function HexString(n: nat): (s: string)
    ensures 1 <= |s| && IsHexString(s) && ParseHex(s) == n
  {
    if n < 16 then [DigitChar(n)]
    else
      var s := HexString(n / 16) + [DigitChar(n % 16)];
      assert s[..|s| - 1] == HexString(n / 16);
      s
  }

  /** A run of k zero digits. */
  function Zeros(k: nat): (s: string)
    ensures |s| == k && IsHexString(s)
  {
    seq(k, _ => '0')
  }

  /** `s.zfill(w)` for a string without a sign. */
  function ZFill(s: string, w: nat): string
  {
    if |s| >= w then s else Zeros(w - |s|) + s
  }

  /** `re.findall("..", s)`: consecutive two-character pieces, a trailing odd
      character dropped (the strings here hold no newline, which `.` skips). */
  function Pairs(s: string): seq<string>
  {
    if |s| < 2 then [] else [s[..2]] + Pairs(s[2..])
  }

  function Reverse(ps: seq<string>): seq<string>
  {
    if ps == [] then [] else Reverse(ps[1..]) + [ps[0]]
  }

  /** `"".join(ps)`. */
  function Concat(ps: seq<string>): string
  {
    if ps == [] then "" else ps[0] + Concat(ps[1..])
  }

  /** Python's `s[i:j]` for non-negative bounds, which clamps instead of failing. */
  function Slice(s: string, i: nat, j: nat): string
  {
    var lo := if i < |s| then i else |s|;
    var hi := if j < |s| then j else |s|;
    if hi <= lo then "" else s[lo..hi]
  }

  /** The two lower-case digits `bytes.hex()` prints for one byte. */
  function ByteHex(b: uint8): string
  {
    [DigitChar(b / 16), DigitChar(b % 16)]
  }

  /** `data.hex()`. */
  function BytesHex(data: seq<uint8>): (s: string)
    ensures |s| == 2 * |data| && IsHexString(s)
  {
    if data == [] then "" else ByteHex(data[0]) + BytesHex(data[1..])
  }

  /** Digits split at any point parse as high part times a power of 16 plus low part. */
  lemma {:induction false} ParseHexAppend(a: string, b: string)
    requires IsHexString(a) && IsHexString(b)
    ensures IsHexString(a + b)
    ensures ParseHex(a + b) == ParseHex(a) * Pow16(|b|) + ParseHex(b)
  {
    assert IsHexString(a + b) by {
      forall i | 0 <= i < |a + b| ensures IsHexChar((a + b)[i]) {
        if i < |a| { assert (a + b)[i] == a[i]; } else { assert (a + b)[i] == b[i - |a|]; }
      }
    }
    if b == [] {
      assert a + b == a;
    } else {
      var b' := b[..|b| - 1];
      var c := b[|b| - 1];
      assert (a + b)[..|a + b| - 1] == a + b';
      assert (a + b)[|a + b| - 1] == c;
      ParseHexAppend(a, b');
      var high, low, p := ParseHex(a), ParseHex(b'), Pow16(|b'|);
      assert ParseHex(a + b) == 16 * (high * p + low) + DigitValue(c);
      assert Pow16(|b|) == 16 * p;
      ShiftDigit(high, p, low, DigitValue(c));
    }
  }

  lemma ShiftDigit(high: int, p: int, low: int, d: int)
    ensures 16 * (high * p + low) + d == high * (16 * p) + (16 * low + d)
  { }

  /** Leading zeros, such as those `zfill` adds, do not change the value. */
  lemma {:induction false} ParseHexZeros(k: nat)
    ensures ParseHex(Zeros(k)) == 0
  {
    if k > 0 {
      assert Zeros(k)[..k - 1] == Zeros(k - 1);
      ParseHexZeros(k - 1);
    }
  }

  lemma ParseByteHex(b: uint8)
    ensures IsHexString(ByteHex(b)) && ParseHex(ByteHex(b)) == b
  {
    assert ByteHex(b)[..1] == [DigitChar(b / 16)];
  }

  /** `hex(n)[2:]` has at most k digits when n is below 16 to the k. */
  lemma {:induction false} HexStringLength(n: nat, k: nat)
    requires 1 <= k && n < Pow16(k)
    ensures |HexString(n)| <= k
  {
    if n >= 16 {
      assert k >= 2;
      HexStringLength(n / 16, k - 1);
    }
  }
}
