/**
 * Lowercase Base16 (section 8 of RFC 4648, with the letters a-f), the text
 * form in which the service renders its 128-bit verification tokens.
 * `Encode` is the encoder the token generator calls; `Decode` is its inverse,
 * used here to prove that the encoding loses nothing and so is injective.
 */
module Hex {
  import opened Wrappers

  /** An octet, as Go's `byte` holds it. */
  newtype byte = x: int | 0 <= x < 0x100

  predicate IsHexDigit(c: char) {
    '0' <= c <= '9' || 'a' <= c <= 'f'
  }

  predicate IsHexString(s: string) {
    forall i :: 0 <= i < |s| ==> IsHexDigit(s[i])
  }

  /** The value of a lowercase hexadecimal digit; None for any other character. */
  function DigitValue(c: char): (v: Option<int>)
    ensures v.Some? <==> IsHexDigit(c)
    ensures v.Some? ==> 0 <= v.value < 16
  {
    if '0' <= c <= '9' then Some(c as int - '0' as int)
    else if 'a' <= c <= 'f' then Some(c as int - 'a' as int + 10)
    else None
  }

  /** The digit of value n in the table "0123456789abcdef". */
  function Digit(n: int): (c: char)
    requires 0 <= n < 16
    ensures IsHexDigit(c) && DigitValue(c) == Some(n)
  {
    if n < 10 then ('0' as int + n) as char else ('a' as int + n - 10) as char
  }

  /**
   * Each byte becomes two digits, the high nibble (`v >> 4`, that is `v / 16`)
   * first and the low nibble (`v & 0x0f`, that is `v % 16`) second.
   */
  function Encode(bytes: seq<byte>): (s: string)
    ensures |s| == 2 * |bytes|
    ensures IsHexString(s)
  {
    if bytes == [] then ""
    else [Digit(bytes[0] as int / 16), Digit(bytes[0] as int % 16)] + Encode(bytes[1..])
  }

  /** Reads pairs of lowercase digits back into bytes; None on odd length or a foreign character. */
  function Decode(s: string): (r: Option<seq<byte>>)
    ensures r.Some? ==> 2 * |r.value| == |s|
    decreases |s|
  {
    if s == [] then Some([])
    else if |s| == 1 then None
    else match (DigitValue(s[0]), DigitValue(s[1]), Decode(s[2..]))
      case (Some(hi), Some(lo), Some(rest)) => Some([(hi * 16 + lo) as byte] + rest)
      case _ => None
  }

  /** Digit 2k and 2k+1 of the encoding are the high and low nibble of byte k. */
  lemma {:induction false} EncodeAt(bytes: seq<byte>, k: int)
    requires 0 <= k < |bytes|
    ensures Encode(bytes)[2 * k] == Digit(bytes[k] as int / 16)
    ensures Encode(bytes)[2 * k + 1] == Digit(bytes[k] as int % 16)
  {
    if k > 0 {
      EncodeAt(bytes[1..], k - 1);
    }
  }

  /** Decoding an encoding gives back the bytes. */
  lemma {:induction false} DecodeEncode(bytes: seq<byte>)
    ensures Decode(Encode(bytes)) == Some(bytes)
  {
    if bytes != [] {
      var b := bytes[0] as int;
      var s := Encode(bytes);
      assert s[2..] == Encode(bytes[1..]);
      DecodeEncode(bytes[1..]);
      assert (b / 16) * 16 + b % 16 == b;
      assert bytes == [bytes[0]] + bytes[1..];
    }
  }

  /** Whatever decodes to some bytes is exactly their encoding: only lowercase, even-length text decodes. */
  lemma {:induction false} EncodeDecode(s: string, bytes: seq<byte>)
    requires Decode(s) == Some(bytes)
    ensures Encode(bytes) == s
  {
    if s != [] {
      var hi, lo := DigitValue(s[0]).value, DigitValue(s[1]).value;
      var rest := Decode(s[2..]).value;
      assert bytes == [(hi * 16 + lo) as byte] + rest;
      EncodeDecode(s[2..], rest);
      var b := hi * 16 + lo;
      assert b / 16 == hi && b % 16 == lo;
      assert Digit(hi) == s[0] && Digit(lo) == s[1];
      assert s == [s[0], s[1]] + s[2..];
    }
  }

  /** Distinct byte strings have distinct encodings. */
  lemma EncodeInjective(a: seq<byte>, b: seq<byte>)
    requires Encode(a) == Encode(b)
    ensures a == b
  {
    DecodeEncode(a);
    DecodeEncode(b);
  }
}
