/**
 * Text encodings used to build the VCEK request URL: the lower-case hex
 * encoding of `hex::encode`, and the decimal rendering of Rust's `{:02}`
 * format specifier (minimum width 2, padded on the left with '0').
 * Each rendering has a parser as its partner, with round-trip lemmas.
 */
module Encoding {
  import opened Wrappers

  /** An unsigned 8-bit integer (Rust `u8`). */
  type byte = x: int | 0 <= x < 256

  // ---------------------------------------------------------------- hex

  /** The alphabet of `hex::encode`: digits and lower-case letters `a`-`f`. */
  predicate IsLowerHexDigit(c: char) {
    '0' <= c <= '9' || 'a' <= c <= 'f'
  }

  predicate IsLowerHex(s: string) {
    forall i :: 0 <= i < |s| ==> IsLowerHexDigit(s[i])
  }

  /** The lower-case hex digit for a nibble. */
  function HexDigit(d: nat): (c: char)
    requires d < 16
    ensures IsLowerHexDigit(c)
  {
    if d < 10 then ('0' as int + d) as char else ('a' as int + d - 10) as char
  }

  /** Two characters per byte, high nibble first. */
  function HexEncode(bs: seq<byte>): (s: string)
    ensures |s| == 2 * |bs|
    ensures IsLowerHex(s)
  {
    if bs == [] then []
    else [HexDigit(bs[0] / 16), HexDigit(bs[0] % 16)] + HexEncode(bs[1..])
  }

  /** The value of one lower-case hex digit, `None` for any other character. */
  function HexDigitValue(c: char): (r: Option<nat>)
    ensures r.Some? <==> IsLowerHexDigit(c)
    ensures r.Some? ==> r.value < 16 && HexDigit(r.value) == c
  {
    if '0' <= c <= '9' then Some(c as int - '0' as int)
    else if 'a' <= c <= 'f' then Some(c as int - 'a' as int + 10)
    else None
  }

  lemma HexDigitValueOf(d: nat)
    requires d < 16
    ensures HexDigitValue(HexDigit(d)) == Some(d)
  {
  }

  lemma NibblesOf(h: nat, l: nat)
    requires h < 16 && l < 16
    ensures (h * 16 + l) / 16 == h && (h * 16 + l) % 16 == l
  {
  }

  /** The byte spelled by two lower-case hex digits, high nibble first. */
  function HexPair(hi: char, lo: char): (r: Option<byte>)
    ensures r.Some? <==> IsLowerHexDigit(hi) && IsLowerHexDigit(lo)
    ensures r.Some? ==> HexDigit(r.value / 16) == hi && HexDigit(r.value % 16) == lo
  {
    match (HexDigitValue(hi), HexDigitValue(lo))
    case (Some(h), Some(l)) => NibblesOf(h, l); Some(h * 16 + l)
    case _ => None
  }

  /** Inverse of `HexEncode`: pairs of lower-case digits, nothing else. */
  function HexDecode(s: string): (r: Option<seq<byte>>)
    ensures r.Some? ==> |s| == 2 * |r.value|
    decreases |s|
  {
    if s == [] then Some([])
    else if |s| == 1 then None
    else match (HexPair(s[0], s[1]), HexDecode(s[2..]))
      case (Some(b), Some(rest)) => Some([b] + rest)
      case _ => None
  }

  lemma HexPairOfByte(b: byte)
    ensures HexPair(HexDigit(b / 16), HexDigit(b % 16)) == Some(b)
  {
    HexDigitValueOf(b / 16);
    HexDigitValueOf(b % 16);
  }

  /** Decoding the encoding gives the bytes back. */
  lemma {:induction false} HexRoundTrip(bs: seq<byte>)
    ensures HexDecode(HexEncode(bs)) == Some(bs)
  {
    if bs != [] {
      var s := HexEncode(bs);
      HexPairOfByte(bs[0]);
      assert s[2..] == HexEncode(bs[1..]);
      HexRoundTrip(bs[1..]);
      assert [bs[0]] + bs[1..] == bs;
    }
  }

  /** A string that decodes is the encoding of what it decodes to: hex text is canonical. */
  lemma {:induction false} HexDecodeCanonical(s: string, bs: seq<byte>)
    requires HexDecode(s) == Some(bs)
    ensures HexEncode(bs) == s
    decreases |s|
  {
    if s != [] {
      var b := HexPair(s[0], s[1]).value;
      var rest := HexDecode(s[2..]).value;
      HexDecodeCanonical(s[2..], rest);
      assert bs == [b] + rest;
      assert s == [s[0], s[1]] + s[2..];
    }
  }

  /** Different byte strings never share an encoding. */
  lemma HexEncodeInjective(a: seq<byte>, b: seq<byte>)
    requires HexEncode(a) == HexEncode(b)
    ensures a == b
  {
    HexRoundTrip(a);
    HexRoundTrip(b);
  }

  // ---------------------------------------------------------------- decimal

  predicate IsDigit(c: char) { '0' <= c <= '9' }

  predicate AllDigits(s: string) {
    forall i :: 0 <= i < |s| ==> IsDigit(s[i])
  }

  function DigitChar(d: nat): (c: char)
    requires d < 10
    ensures IsDigit(c) && c as int - '0' as int == d
  {
    ('0' as int + d) as char
  }

  /** Decimal rendering of `n` without padding (Rust's `{}` on an unsigned integer). */
  function Decimal(n: nat): (s: string)
    ensures s != [] && AllDigits(s)
    ensures s[0] == '0' <==> n == 0
    ensures n < 10 <==> |s| == 1
  {
    if n < 10 then [DigitChar(n)] else Decimal(n / 10) + [DigitChar(n % 10)]
  }

  /** Left-pad with '0' up to `width`; a longer string is kept whole. */
  function ZeroPad(s: string, width: nat): (r: string)
    ensures |r| == if |s| < width then width else |s|
    ensures r[|r| - |s|..] == s
    ensures forall i :: 0 <= i < |r| - |s| ==> r[i] == '0'
  {
    if |s| < width then seq(width - |s|, _ => '0') + s else s
  }

  /**
   * Rust `format!("{:02}", n)`: decimal, zero-padded to a minimum width of 2.
   * Always at least two digits, and exactly two for the values below 100.
   */
  function Pad2(n: nat): (r: string)
    ensures |r| >= 2 && AllDigits(r)
    ensures |r| == 2 <==> n < 100
  {
    var digits := Decimal(n);
    assert n >= 10 ==> |digits| == |Decimal(n / 10)| + 1;
    assert n >= 100 ==> |Decimal(n / 10)| >= 2;
    ZeroPad(digits, 2)
  }

  /** Value of a string of decimal digits, most significant first (leading zeros allowed). */
  function DigitsValue(s: string): nat
    requires AllDigits(s)
  {
    if s == [] then 0
    else DigitsValue(s[..|s| - 1]) * 10 + (s[|s| - 1] as int - '0' as int)
  }

  /** Parses a rendered `u8` field: non-empty, decimal digits only, at most 255. */
  function ParseByte(s: string): (r: Option<byte>)
    ensures r.Some? ==> s != [] && AllDigits(s)
  {
    if s != [] && AllDigits(s) && DigitsValue(s) < 256 then Some(DigitsValue(s)) else None
  }

  lemma {:induction false} DecimalValue(n: nat)
    ensures DigitsValue(Decimal(n)) == n
  {
    if n >= 10 {
      var s := Decimal(n);
      assert s[..|s| - 1] == Decimal(n / 10);
      DecimalValue(n / 10);
    }
  }

  /** Values 0-9 get exactly one leading '0'. */
  lemma Pad2Small(n: nat)
    requires n < 10
    ensures Pad2(n) == ['0', DigitChar(n)]
  {
    assert Decimal(n) == [DigitChar(n)];
    assert seq(1, _ => '0') == ['0'];
  }

  /** Values of ten or more print in full: no padding, no truncation. */
  lemma Pad2Large(n: nat)
    requires n >= 10
    ensures Pad2(n) == Decimal(n)
  {
  }

  /** The rendering of a `u8` is two or three digits and parses back to the value. */
  lemma Pad2RoundTrip(n: byte)
    ensures 2 <= |Pad2(n)| <= 3 && AllDigits(Pad2(n))
    ensures ParseByte(Pad2(n)) == Some(n)
  {
    if n < 10 {
      Pad2Small(n);
      var s := Pad2(n);
      assert s[..1] == ['0'];
      assert DigitsValue(s[..1]) == 0 by {
        assert s[..1][..0] == [];
      }
    } else {
      DecimalValue(n);
      if n >= 100 {
        assert |Decimal(n / 10)| == 2;
      }
    }
  }

  lemma Pad2Injective(a: byte, b: byte)
    requires Pad2(a) == Pad2(b)
    ensures a == b
  {
    Pad2RoundTrip(a);
    Pad2RoundTrip(b);
  }
}
