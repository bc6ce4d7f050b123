/** Manual entry of a sensor's MAC address in the configuration flow: the
    typed text is cleaned up, a bare 12-digit form gets its colons, the
    result must match `^([0-9A-F]{2}[:]){5}([0-9A-F]{2})$`, and the entry
    title is made from the last two octets. */
module MacAddress {
  import opened Wrappers

  /** Characters for which Python's `str.isspace()` holds, which `str.strip()` removes. */
  predicate IsWhitespace(c: char)
  {
    c == ' ' || '\t' <= c <= '\r' || '\U{1c}' <= c <= '\U{1f}' || c == '\U{85}' || c == '\U{a0}'
    || c == '\U{1680}' || '\U{2000}' <= c <= '\U{200a}' || c == '\U{2028}' || c == '\U{2029}'
    || c == '\U{202f}' || c == '\U{205f}' || c == '\U{3000}'
  }

  function StripLeading(s: string): string
  {
    if |s| > 0 && IsWhitespace(s[0]) then StripLeading(s[1..]) else s
  }

  function StripTrailing(s: string): string
  {
    if |s| > 0 && IsWhitespace(s[|s| - 1]) then StripTrailing(s[..|s| - 1]) else s
  }

  /** `s.strip()`. */
  function Strip(s: string): string
  {
    StripTrailing(StripLeading(s))
  }

  function UpperChar(c: char): char
  {
    if 'a' <= c <= 'z' then (c as int - 32) as char else c
  }

  function LowerChar(c: char): char
  {
    if 'A' <= c <= 'Z' then (c as int + 32) as char else c
  }

  /** `s.upper()` on ASCII letters. */
  function Upper(s: string): string
  {
    seq(|s|, i requires 0 <= i < |s| => UpperChar(s[i]))
  }

  function Lower(s: string): string
  {
    seq(|s|, i requires 0 <= i < |s| => LowerChar(s[i]))
  }

  /** `s.replace(a, b)` for single characters a and b. */
  function ReplaceChar(s: string, a: char, b: char): string
  {
    seq(|s|, i requires 0 <= i < |s| => if s[i] == a then b else s[i])
  }

  /** `s.replace(c, "")`. */
  function RemoveChar(s: string, c: char): string
  {
    if s == [] then "" else (if s[0] == c then "" else [s[0]]) + RemoveChar(s[1..], c)
  }

  /** `sep.join(parts)`. */
  function Join(sep: string, parts: seq<string>): string
  {
    if parts == [] then ""
    else if |parts| == 1 then parts[0]
    else parts[0] + sep + Join(sep, parts[1..])
  }

  /** `":".join([s[i:i+2] for i in range(0, 12, 2)])`. */
  function ColonPairs(s: string): string
    requires |s| == 12
  {
    Join(":", seq(6, k requires 0 <= k < 6 => s[2 * k..2 * k + 2]))
  }

  /** The typed text after `.strip().upper()`, `.replace("-", ":")` and `.replace(" ", "")`. */
  function Clean(input: string): string
  {
    RemoveChar(ReplaceChar(Upper(Strip(input)), '-', ':'), ' ')
  }

  /** The address the flow validates. */
  function Normalize(input: string): string
  {
    var cleaned := Clean(input);
    if |cleaned| == 12 && ':' !in cleaned then ColonPairs(cleaned) else cleaned
  }

  predicate IsUpperHex(c: char)
  {
    '0' <= c <= '9' || 'A' <= c <= 'F'
  }

  /** `[0-9A-F]{2}` at position i. */
  predicate HexPairAt(s: string, i: nat)
    requires i + 2 <= |s|
  {
    IsUpperHex(s[i]) && IsUpperHex(s[i + 1])
  }

  /** `([0-9A-F]{2}[:]){n}` matches the first 3n characters. */
  predicate GroupsMatch(s: string, n: nat)
    requires 3 * n <= |s|
  {
    n == 0 || (GroupsMatch(s, n - 1) && HexPairAt(s, 3 * n - 3) && s[3 * n - 1] == ':')
  }

  /** `re.match(r'^([0-9A-F]{2}[:]){5}([0-9A-F]{2})$', s)`: Python's `$`
      also matches before a newline that ends the string. */
  predicate MatchesMacPattern(s: string)
  {
    17 <= |s| && GroupsMatch(s, 5) && HexPairAt(s, 15)
    && (|s| == 17 || (|s| == 18 && s[17] == '\n'))
  }

  /** Colon positions of a well-formed address. */
  predicate IsSeparatorIndex(i: int)
  {
    i == 2 || i == 5 || i == 8 || i == 11 || i == 14
  }

  /** Seventeen characters: colons at 2, 5, 8, 11 and 14, upper-case hex digits elsewhere. */
  predicate WellFormedMac(s: string)
  {
    |s| == 17 && forall i | 0 <= i < 17 :: if IsSeparatorIndex(i) then s[i] == ':' else IsUpperHex(s[i])
  }

  /** `s[-n:]`. */
  function Suffix(s: string, n: nat): string
  {
    if |s| <= n then s else s[|s| - n..]
  }

  /** The entry title `f"TPMS {address[-5:].replace(':', '')}"`. */
  function Title(address: string): string
  {
    "TPMS " + RemoveChar(Suffix(address, 5), ':')
  }

  datatype Entry = Entry(address: string, title: string)

  datatype AbortReason = InvalidMacFormat

  /** The manual-entry branch of the user step. */
  function ManualEntry(input: string): (r: Result<Entry, AbortReason>)
    ensures r.Err? <==> !MatchesMacPattern(Normalize(input))
    ensures r.Ok? ==> r.value.address == Normalize(input) && WellFormedMac(r.value.address)
    ensures r.Ok? ==> r.value.title == "TPMS " + r.value.address[12..14] + r.value.address[15..17]
  {
    var address := Normalize(input);
    if !MatchesMacPattern(address) then Err(InvalidMacFormat)
    else
      NormalizeHasNoFinalNewline(input);
      PatternIsWellFormed(address);
      TitleOfWellFormed(address);
      Ok(Entry(address, Title(address)))
  }

  // ---------------------------------------------------------------- lemmas

  /** The pattern, once a final newline is ruled out, is exactly the shape of a well-formed address. */
  lemma PatternIsWellFormed(s: string)
    ensures MatchesMacPattern(s) && s[|s| - 1] != '\n' ==> WellFormedMac(s)
    ensures WellFormedMac(s) ==> MatchesMacPattern(s)
  {
    if 17 <= |s| {
      assert GroupsMatch(s, 1) <==> HexPairAt(s, 0) && s[2] == ':';
      assert GroupsMatch(s, 2) <==> GroupsMatch(s, 1) && HexPairAt(s, 3) && s[5] == ':';
      assert GroupsMatch(s, 3) <==> GroupsMatch(s, 2) && HexPairAt(s, 6) && s[8] == ':';
      assert GroupsMatch(s, 4) <==> GroupsMatch(s, 3) && HexPairAt(s, 9) && s[11] == ':';
      assert GroupsMatch(s, 5) <==> GroupsMatch(s, 4) && HexPairAt(s, 12) && s[14] == ':';
    }
  }

  /** The last character of a stripped string is not whitespace. */
  lemma {:induction false} StripTrailingEnd(s: string)
    ensures StripTrailing(s) == [] || !IsWhitespace(StripTrailing(s)[|StripTrailing(s)| - 1])
  {
    if |s| > 0 && IsWhitespace(s[|s| - 1]) {
      StripTrailingEnd(s[..|s| - 1]);
    }
  }

  /** Removing a character other than the last one keeps the last one last. */
  lemma {:induction false} RemoveCharKeepsLast(s: string, c: char)
    requires s != [] && s[|s| - 1] != c
    ensures RemoveChar(s, c) != [] && RemoveChar(s, c)[|RemoveChar(s, c)| - 1] == s[|s| - 1]
  {
    if |s| > 1 {
      RemoveCharKeepsLast(s[1..], c);
    }
  }

  /** Removing a character that does not occur changes nothing. */
  lemma {:induction false} RemoveCharAbsent(s: string, c: char)
    requires c !in s
    ensures RemoveChar(s, c) == s
  {
    if s != [] {
      RemoveCharAbsent(s[1..], c);
      assert s == [s[0]] + s[1..];
    }
  }

  /** Cleaned text never ends in whitespace, so it never ends in a newline. */
  lemma CleanEnd(input: string)
    ensures Clean(input) == [] || !IsWhitespace(Clean(input)[|Clean(input)| - 1])
  {
    var stripped := Strip(input);
    StripTrailingEnd(StripLeading(input));
    if stripped != [] {
      var u := ReplaceChar(Upper(stripped), '-', ':');
      assert u[|u| - 1] == (if UpperChar(stripped[|stripped| - 1]) == '-' then ':' else UpperChar(stripped[|stripped| - 1]));
      RemoveCharKeepsLast(u, ' ');
    }
  }

  /** The six pairs of a 12-character string, joined by colons, spelled out. */
  lemma ColonPairsSpelled(s: string)
    requires |s| == 12
    ensures ColonPairs(s) == s[0..2] + ":" + s[2..4] + ":" + s[4..6] + ":" + s[6..8] + ":" + s[8..10] + ":" + s[10..12]
  {
    var parts := seq(6, k requires 0 <= k < 6 => s[2 * k..2 * k + 2]);
    assert parts == [s[0..2], s[2..4], s[4..6], s[6..8], s[8..10], s[10..12]];
    assert Join(":", parts[5..]) == s[10..12];
    assert Join(":", parts[4..]) == s[8..10] + ":" + Join(":", parts[5..]) by { assert parts[4..][1..] == parts[5..]; }
    assert Join(":", parts[3..]) == s[6..8] + ":" + Join(":", parts[4..]) by { assert parts[3..][1..] == parts[4..]; }
    assert Join(":", parts[2..]) == s[4..6] + ":" + Join(":", parts[3..]) by { assert parts[2..][1..] == parts[3..]; }
    assert Join(":", parts[1..]) == s[2..4] + ":" + Join(":", parts[2..]) by { assert parts[1..][1..] == parts[2..]; }
    assert Join(":", parts) == s[0..2] + ":" + Join(":", parts[1..]);
  }

  /** A normalised address never ends in a newline, so `$` only matches at the end. */
  lemma NormalizeHasNoFinalNewline(input: string)
    ensures Normalize(input) == [] || Normalize(input)[|Normalize(input)| - 1] != '\n'
  {
    var cleaned := Clean(input);
    CleanEnd(input);
    if |cleaned| == 12 && ':' !in cleaned {
      ColonPairsSpelled(cleaned);
      assert Normalize(input)[16] == cleaned[11];
    }
  }

  /** The title of a well-formed address is "TPMS " and its last four digits. */
  lemma TitleOfWellFormed(a: string)
    requires WellFormedMac(a)
    ensures Title(a) == "TPMS " + a[12..14] + a[15..17]
  {
    var tail := a[12..];
    assert Suffix(a, 5) == tail;
    assert !IsSeparatorIndex(12) && !IsSeparatorIndex(13) && !IsSeparatorIndex(15) && !IsSeparatorIndex(16);
    assert IsSeparatorIndex(14);
    assert tail == a[12..14] + ":" + a[15..17];
    RemoveColonAfterPair(a[12..14], a[15..17]);
    assert ':' !in a[15..17];
    RemoveCharAbsent(a[15..17], ':');
  }

  /** Normalising an address that is already well formed returns it unchanged,
      so entering it again is accepted with the same title. */
  lemma NormalizeWellFormed(a: string)
    requires WellFormedMac(a)
    ensures Clean(a) == a && Normalize(a) == a
    ensures ManualEntry(a) == Ok(Entry(a, "TPMS " + a[12..14] + a[15..17]))
  {
    assert !IsWhitespace(a[0]) && !IsWhitespace(a[16]);
    assert StripLeading(a) == a;
    assert Strip(a) == a;
    assert Upper(a) == a;
    assert ReplaceChar(a, '-', ':') == a;
    assert ' ' !in a;
    RemoveCharAbsent(a, ' ');
    assert Clean(a) == a;
    PatternIsWellFormed(a);
  }

  /** A string without whitespace at either end is left alone by `strip()`. */
  lemma StripUnpadded(s: string)
    requires s != [] && !IsWhitespace(s[0]) && !IsWhitespace(s[|s| - 1])
    ensures Strip(s) == s
  { }

  /** Leading and trailing whitespace is what `strip()` takes away. */
  lemma {:induction false} StripPadded(w1: string, s: string, w2: string)
    requires forall i | 0 <= i < |w1| :: IsWhitespace(w1[i])
    requires forall i | 0 <= i < |w2| :: IsWhitespace(w2[i])
    requires s != [] && !IsWhitespace(s[0]) && !IsWhitespace(s[|s| - 1])
    ensures Strip(w1 + s + w2) == s
  {
    if w1 != [] {
      assert (w1 + s + w2)[1..] == w1[1..] + s + w2;
      StripPadded(w1[1..], s, w2);
    } else if w2 != [] {
      assert w1 + s + w2 == s + w2;
      StripTrailingPadded(s, w2);
    } else {
      assert w1 + s + w2 == s;
    }
  }

  lemma {:induction false} StripTrailingPadded(s: string, w: string)
    requires forall i | 0 <= i < |w| :: IsWhitespace(w[i])
    requires s != [] && !IsWhitespace(s[0]) && !IsWhitespace(s[|s| - 1])
    ensures Strip(s + w) == s
  {
    if w != [] {
      var w' := w[..|w| - 1];
      assert (s + w)[..|s + w| - 1] == s + w';
      StripTrailingPadded(s, w');
    } else {
      assert s + w == s;
    }
  }

  /** Removing a character distributes over concatenation. */
  lemma {:induction false} RemoveCharAppend(x: string, y: string, c: char)
    ensures RemoveChar(x + y, c) == RemoveChar(x, c) + RemoveChar(y, c)
  {
    if x == [] {
      assert x + y == y;
    } else {
      assert (x + y)[1..] == x[1..] + y;
      RemoveCharAppend(x[1..], y, c);
    }
  }

  /** Turning c into a character d the string lacks, then removing d, removes c. */
  lemma {:induction false} RemoveReplaced(s: string, c: char, d: char)
    requires d !in s
    ensures RemoveChar(ReplaceChar(s, c, d), d) == RemoveChar(s, c)
  {
    if s != [] {
      assert ReplaceChar(s, c, d)[1..] == ReplaceChar(s[1..], c, d);
      RemoveReplaced(s[1..], c, d);
    }
  }

  /** The twelve digits of a well-formed address, without its colons. */
  function Digits(a: string): string
    requires |a| == 17
  {
    a[0..2] + a[3..5] + a[6..8] + a[9..11] + a[12..14] + a[15..17]
  }

  lemma RemoveColonAfterPair(p: string, rest: string)
    requires |p| == 2 && ':' !in p
    ensures RemoveChar(p + ":" + rest, ':') == p + RemoveChar(rest, ':')
  {
    RemoveCharAppend(p + ":", rest, ':');
    RemoveCharAppend(p, ":", ':');
    RemoveCharAbsent(p, ':');
  }

  /** Seventeen characters with colons at 2, 5, 8, 11 and 14 are six pairs joined by colons. */
  lemma SplitAtColons(a: string)
    requires |a| == 17 && a[2] == ':' && a[5] == ':' && a[8] == ':' && a[11] == ':' && a[14] == ':'
    ensures a == a[0..2] + ":" + (a[3..5] + ":" + (a[6..8] + ":" + (a[9..11] + ":" + (a[12..14] + ":" + a[15..17]))))
  { }

  /** Deleting the colons of a well-formed address leaves its digits. */
  lemma RemoveColonsOfWellFormed(a: string)
    requires WellFormedMac(a)
    ensures RemoveChar(a, ':') == Digits(a)
  {
    var p0, p1, p2, p3, p4, p5 := a[0..2], a[3..5], a[6..8], a[9..11], a[12..14], a[15..17];
    assert forall i | 0 <= i < 17 && !IsSeparatorIndex(i) :: a[i] != ':';
    assert ':' !in p0 && ':' !in p1 && ':' !in p2 && ':' !in p3 && ':' !in p4;
    assert ':' !in p5 by { assert !IsSeparatorIndex(15) && !IsSeparatorIndex(16); }
    var r4 := p4 + ":" + p5;
    var r3 := p3 + ":" + r4;
    var r2 := p2 + ":" + r3;
    var r1 := p1 + ":" + r2;
    var r0 := p0 + ":" + r1;
    assert IsSeparatorIndex(2) && IsSeparatorIndex(5) && IsSeparatorIndex(8);
    assert IsSeparatorIndex(11) && IsSeparatorIndex(14);
    SplitAtColons(a);
    RemoveColonAfterPair(p0, r1);
    RemoveColonAfterPair(p1, r2);
    RemoveColonAfterPair(p2, r3);
    RemoveColonAfterPair(p3, r4);
    RemoveColonAfterPair(p4, p5);
    RemoveCharAbsent(p5, ':');
    assert RemoveChar(a, ':') == p0 + (p1 + (p2 + (p3 + (p4 + p5))));
  }

  /** The digits of a well-formed address are twelve upper-case hex digits. */
  lemma DigitsAreHex(a: string)
    requires WellFormedMac(a)
    ensures |Digits(a)| == 12
    ensures forall i | 0 <= i < 12 :: IsUpperHex(Digits(a)[i])
  {
    var d := Digits(a);
    forall i | 0 <= i < 12 ensures IsUpperHex(d[i]) {
      var j := i + i / 2;
      assert d[i] == a[j];
      assert !IsSeparatorIndex(j);
    }
  }

  /** Putting the colons back into the digits of a well-formed address restores it. */
  lemma ColonPairsOfDigits(a: string)
    requires WellFormedMac(a)
    ensures ColonPairs(Digits(a)) == a
  {
    var d := Digits(a);
    ColonPairsSpelled(d);
    assert d[0..2] == a[0..2] && d[2..4] == a[3..5] && d[4..6] == a[6..8];
    assert d[6..8] == a[9..11] && d[8..10] == a[12..14] && d[10..12] == a[15..17];
    assert IsSeparatorIndex(2) && IsSeparatorIndex(5) && IsSeparatorIndex(8);
    assert IsSeparatorIndex(11) && IsSeparatorIndex(14);
    assert a == a[0..2] + ":" + a[3..5] + ":" + a[6..8] + ":" + a[9..11] + ":" + a[12..14] + ":" + a[15..17];
  }

  /** The bare twelve digits of an address normalise to the address. */
  lemma NormalizeBare(a: string)
    requires WellFormedMac(a)
    ensures Normalize(Digits(a)) == a
  {
    DigitsAreHex(a);
    ColonPairsOfDigits(a);
    var d := Digits(a);
    StripUnpadded(d);
    assert Upper(d) == d && ReplaceChar(d, '-', ':') == d;
    assert ' ' !in d && ':' !in d;
    RemoveCharAbsent(d, ' ');
  }

  /** Dashes in place of colons normalise to the address. */
  lemma NormalizeDashed(a: string)
    requires WellFormedMac(a)
    ensures Normalize(ReplaceChar(a, ':', '-')) == a
  {
    var dashed := ReplaceChar(a, ':', '-');
    assert !IsSeparatorIndex(0) && !IsSeparatorIndex(16);
    StripUnpadded(dashed);
    assert Upper(dashed) == dashed;
    assert ReplaceChar(dashed, '-', ':') == a;
    assert ' ' !in a;
    RemoveCharAbsent(a, ' ');
  }

  /** Spaces in place of colons normalise to the address. */
  lemma NormalizeSpaced(a: string)
    requires WellFormedMac(a)
    ensures Normalize(ReplaceChar(a, ':', ' ')) == a
  {
    var spaced := ReplaceChar(a, ':', ' ');
    assert !IsSeparatorIndex(0) && !IsSeparatorIndex(16);
    StripUnpadded(spaced);
    assert Upper(spaced) == spaced;
    assert '-' !in spaced;
    assert ReplaceChar(spaced, '-', ':') == spaced;
    assert ' ' !in a;
    RemoveReplaced(a, ':', ' ');
    RemoveColonsOfWellFormed(a);
    assert Clean(spaced) == Digits(a);
    DigitsAreHex(a);
    assert ':' !in Digits(a);
    ColonPairsOfDigits(a);
    assert Normalize(spaced) == ColonPairs(Digits(a));
  }

  /** A lower-case spelling normalises to the address. */
  lemma NormalizeLower(a: string)
    requires WellFormedMac(a)
    ensures Normalize(Lower(a)) == a
  {
    var lower := Lower(a);
    assert !IsSeparatorIndex(0) && !IsSeparatorIndex(16);
    StripUnpadded(lower);
    assert Upper(lower) == a;
    assert ReplaceChar(a, '-', ':') == a by { assert '-' !in a; }
    assert ' ' !in a;
    RemoveCharAbsent(a, ' ');
    assert Clean(lower) == a;
  }

  /** A lower-case spelling with dashes in place of colons, such as
      `aa-bb-cc-dd-ee-ff`, normalises to the address. */
  lemma NormalizeLowerDashed(a: string)
    requires WellFormedMac(a)
    ensures Normalize(Lower(ReplaceChar(a, ':', '-'))) == a
  {
    var dashed := ReplaceChar(a, ':', '-');
    var lower := Lower(dashed);
    assert !IsSeparatorIndex(0) && !IsSeparatorIndex(16);
    StripUnpadded(lower);
    assert Upper(lower) == dashed;
    assert ReplaceChar(dashed, '-', ':') == a;
    assert ' ' !in a;
    RemoveCharAbsent(a, ' ');
    assert Clean(lower) == a;
  }

  /** A lower-case spelling with spaces in place of colons, such as
      `aa bb cc dd ee ff`, normalises to the address. */
  lemma NormalizeLowerSpaced(a: string)
    requires WellFormedMac(a)
    ensures Normalize(Lower(ReplaceChar(a, ':', ' '))) == a
  {
    NormalizeSpaced(a);
    var spaced := ReplaceChar(a, ':', ' ');
    assert !IsSeparatorIndex(0) && !IsSeparatorIndex(16);
    StripUnpadded(Lower(spaced));
    StripUnpadded(spaced);
    assert Upper(Lower(spaced)) == spaced;
    assert Upper(spaced) == spaced;
    assert Clean(Lower(spaced)) == Clean(spaced);
  }

  /** Whitespace around the address is ignored. */
  lemma NormalizePadded(a: string, w1: string, w2: string)
    requires WellFormedMac(a)
    requires forall i | 0 <= i < |w1| :: IsWhitespace(w1[i])
    requires forall i | 0 <= i < |w2| :: IsWhitespace(w2[i])
    ensures Normalize(w1 + a + w2) == a
  {
    assert !IsSeparatorIndex(0) && !IsSeparatorIndex(16);
    StripPadded(w1, a, w2);
    NormalizeWellFormed(a);
  }
}
