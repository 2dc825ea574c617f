/** Bytes and Node's `'hex'` encoding: `buf.toString('hex')` writes two
    lower-case digits per byte; `Buffer.from(s, 'hex')` reads digit pairs
    of either case and stops at the first pair holding a non-digit (a
    trailing odd digit is dropped). */
module Hex {

  type byte = x: int | 0 <= x < 256

  function HexDigit(d: nat): (c: char)
    requires d < 16
  {
    ("0123456789abcdef")[d]
  }

  /** The value of a hexadecimal digit of either case. */
  function HexValue(c: char): (v: int)
    ensures -1 <= v < 16
  {
    if '0' <= c <= '9' then c as int - '0' as int
    else if 'a' <= c <= 'f' then c as int - 'a' as int + 10
    else if 'A' <= c <= 'F' then c as int - 'A' as int + 10
    else -1
  }

  lemma HexValueDigit(d: nat)
    requires d < 16
    ensures HexValue(HexDigit(d)) == d
  {
  }

  function Encode(b: seq<byte>): (s: string)
    ensures |s| == 2 * |b|
    ensures forall i :: 0 <= i < |s| ==> HexValue(s[i]) >= 0
    ensures ':' !in s
    decreases |b|
  {
    if |b| == 0 then ""
    else [HexDigit(b[0] / 16), HexDigit(b[0] % 16)] + Encode(b[1..])
  }

  function Decode(s: string): (b: seq<byte>)
    ensures |b| <= |s| / 2
    decreases |s|
  {
    if |s| < 2 || HexValue(s[0]) < 0 || HexValue(s[1]) < 0 then []
    else [HexValue(s[0]) * 16 + HexValue(s[1])] + Decode(s[2..])
  }

  /** Node reads back exactly the bytes it wrote. */
  lemma {:induction false} DecodeEncode(b: seq<byte>)
    ensures Decode(Encode(b)) == b
    decreases |b|
  {
    if |b| > 0 {
      var hi, lo := HexDigit(b[0] / 16), HexDigit(b[0] % 16);
      var rest := Encode(b[1..]);
      assert Encode(b) == [hi, lo] + rest;
      ByteDigits(b[0]);
      DecodePair(hi, lo, rest);
      DecodeEncode(b[1..]);
      assert [b[0]] + b[1..] == b;
    }
  }

  /** A leading pair of digits decodes to one byte before the rest. */
  lemma DecodePair(hi: char, lo: char, rest: string)
    requires HexValue(hi) >= 0 && HexValue(lo) >= 0
    ensures Decode([hi, lo] + rest) == [HexValue(hi) * 16 + HexValue(lo)] + Decode(rest)
  {
    var s := [hi, lo] + rest;
    assert s[0] == hi && s[1] == lo && s[2..] == rest;
  }

  /** The two digits written for a byte read back as that byte. */
  lemma ByteDigits(x: byte)
    ensures HexValue(HexDigit(x / 16)) == x / 16 && HexValue(HexDigit(x % 16)) == x % 16
    ensures HexValue(HexDigit(x / 16)) * 16 + HexValue(HexDigit(x % 16)) == x
  {
    HexValueDigit(x / 16);
    HexValueDigit(x % 16);
  }

  /** Encoding is injective: different bytes give different text. */
  lemma EncodeInjective(a: seq<byte>, b: seq<byte>)
    requires Encode(a) == Encode(b)
    ensures a == b
  {
    DecodeEncode(a);
    DecodeEncode(b);
  }
}
