/** Base-16 text of the 16 random IV bytes, as `WordArray.toString(CryptoJS.enc.Hex)`
    writes it: two lower-case digits per byte, high nibble first. */
module Hex {
  import opened Json

  type Byte = x: int | 0 <= x < 256

  const Digits: string := "0123456789abcdef"

  /** The value of one hexadecimal digit; both letter cases are read. */
  function DigitValue(c: char): (r: Option<int>)
    ensures r.Some? ==> 0 <= r.value < 16
  {
    if '0' <= c <= '9' then Some(c as int - '0' as int)
    else if 'a' <= c <= 'f' then Some(c as int - 'a' as int + 10)
    else if 'A' <= c <= 'F' then Some(c as int - 'A' as int + 10)
    else None
  }

  /** Every character is one of the sixteen lower-case digits. */
  ghost predicate IsLowerHex(s: string)
  {
    forall i :: 0 <= i < |s| ==> s[i] in Digits
  }

  /** The byte two digits spell, high nibble first. */
  function PairValue(c0: char, c1: char): (r: Option<Byte>)
    ensures r.Some? <==> DigitValue(c0).Some? && DigitValue(c1).Some?
    ensures r.Some? ==> r.value == DigitValue(c0).value * 16 + DigitValue(c1).value
  {
    var hi, lo := DigitValue(c0), DigitValue(c1);
    if hi.Some? && lo.Some? then Some(hi.value * 16 + lo.value) else None
  }

  /** Two lower-case digits, high nibble first, that read back as the byte. */
  function EncodeByte(b: Byte): (pair: string)
    ensures |pair| == 2 && pair[0] in Digits && pair[1] in Digits
    ensures PairValue(pair[0], pair[1]) == Some(b)
  {
    var hi, lo := b / 16, b % 16;
    assert hi * 16 + lo == b;
    DigitsPairValue(hi, lo);
    [Digits[hi], Digits[lo]]
  }

  function Encode(bytes: seq<Byte>): (s: string)
    ensures |s| == 2 * |bytes|
    ensures IsLowerHex(s)
  {
    if bytes == [] then "" else EncodeByte(bytes[0]) + Encode(bytes[1..])
  }

  /** The reading direction: pairs of digits back to bytes; `None` for an odd
      length or a character that is not a digit. */
  function Decode(s: string): (r: Option<seq<Byte>>)
    ensures r.Some? ==> 2 * |r.value| == |s|
    decreases |s|
  {
    if |s| < 2 then (if s == [] then Some([]) else None)
    else
      var x, rest := PairValue(s[0], s[1]), Decode(s[2..]);
      if x.Some? && rest.Some? then Some([x.value] + rest.value) else None
  }

  lemma DigitValueOfDigit(n: int)
    requires 0 <= n < 16
    ensures DigitValue(Digits[n]) == Some(n)
  {
  }

  lemma DigitsPairValue(hi: int, lo: int)
    requires 0 <= hi < 16 && 0 <= lo < 16
    ensures PairValue(Digits[hi], Digits[lo]) == Some(hi * 16 + lo)
  {
    DigitValueOfDigit(hi);
    DigitValueOfDigit(lo);
  }

  /** Encoding a byte in front of a tail writes its two digits in front. */
  lemma EncodeCons(b: Byte, rest: seq<Byte>)
    ensures Encode([b] + rest) == EncodeByte(b) + Encode(rest)
  {
    assert ([b] + rest)[1..] == rest;
  }

  /** Two digits of value `x` in front of readable text read as `x` in front. */
  lemma DecodeDigits(pair: string, rest: string, x: Byte)
    requires |pair| == 2 && PairValue(pair[0], pair[1]) == Some(x)
    requires Decode(rest).Some?
    ensures Decode(pair + rest) == Some([x] + Decode(rest).value)
  {
    var s := pair + rest;
    assert s[0] == pair[0] && s[1] == pair[1] && s[2..] == rest;
  }

  /** One byte in front of a tail that already reads back. */
  lemma DecodeEncodeStep(b: Byte, rest: seq<Byte>)
    requires Decode(Encode(rest)) == Some(rest)
    ensures Decode(Encode([b] + rest)) == Some([b] + rest)
  {
    EncodeCons(b, rest);
    DecodeDigits(EncodeByte(b), Encode(rest), b);
  }

  lemma {:induction false} DecodeEncode(bytes: seq<Byte>)
    ensures Decode(Encode(bytes)) == Some(bytes)
  {
    if bytes != [] {
      DecodeEncode(bytes[1..]);
      DecodeEncodeStep(bytes[0], bytes[1..]);
      assert bytes == [bytes[0]] + bytes[1..];
    }
  }
}
