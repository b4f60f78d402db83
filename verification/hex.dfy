/** Base16 decoding as Go's `encoding/hex.DecodeString` performs it (the
    alphabet of section 8 of RFC 4648, accepted in either case).

    The input is read pair by pair from the left. The first character that is
    not a hex digit is reported; an odd length is reported only when every
    character is a hex digit. */
module Hex {
  import opened Wrappers

  type byte = x: int | 0 <= x < 256

  /** `InvalidByte` is Go's `hex.InvalidByteError`, `OddLength` is `hex.ErrLength`. */
  datatype HexError = InvalidByte(c: char) | OddLength

  predicate IsHexDigit(c: char) {
    '0' <= c <= '9' || 'a' <= c <= 'f' || 'A' <= c <= 'F'
  }

  predicate AllHexDigits(s: string) {
    forall i | 0 <= i < |s| :: IsHexDigit(s[i])
  }

  function DigitValue(c: char): (v: nat)
    requires IsHexDigit(c)
    ensures v < 16
  {
    if '0' <= c <= '9' then c as int - '0' as int
    else if 'a' <= c <= 'f' then c as int - 'a' as int + 10
    else c as int - 'A' as int + 10
  }

  /** The character for digit value `v`, in lower case (Go's encoder) or upper case. */
  function HexDigit(v: nat, upper: bool): (c: char)
    requires v < 16
    ensures IsHexDigit(c) && DigitValue(c) == v
  {
    if v < 10 then ('0' as int + v) as char
    else if upper then ('A' as int + v - 10) as char
    else ('a' as int + v - 10) as char
  }

  function Decode(s: string): (r: Result<seq<byte>, HexError>)
    ensures r.Success? <==> |s| % 2 == 0 && AllHexDigits(s)
    ensures r == Failure(OddLength) <==> |s| % 2 == 1 && AllHexDigits(s)
    ensures r.Success? ==> |r.value| == |s| / 2
    decreases |s|
  {
    if |s| == 0 then Success([])
    else if !IsHexDigit(s[0]) then Failure(InvalidByte(s[0]))
    else if |s| == 1 then Failure(OddLength)
    else if !IsHexDigit(s[1]) then Failure(InvalidByte(s[1]))
    else
      var tail := Decode(s[2..]);
      AllHexDigitsAfterPair(s);
      if tail.Failure? then Failure(tail.error)
      else
        Success([16 * DigitValue(s[0]) + DigitValue(s[1])] + tail.value)
  }

  lemma AllHexDigitsAfterPair(s: string)
    requires |s| >= 2
    ensures AllHexDigits(s) <==> IsHexDigit(s[0]) && IsHexDigit(s[1]) && AllHexDigits(s[2..])
  {
    assert forall i | 2 <= i < |s| :: s[i] == s[2..][i - 2];
  }

  /** Each decoded octet is 16 times the value of its first digit plus the
      value of its second. */
  lemma {:induction false} DecodeOctets(s: string, i: nat)
    requires Decode(s).Success? && i < |Decode(s).value|
    ensures Decode(s).value[i] == 16 * DigitValue(s[2 * i]) + DigitValue(s[2 * i + 1])
    decreases |s|
  {
    if i > 0 {
      DecodeOctets(s[2..], i - 1);
      assert s[2 * i] == s[2..][2 * (i - 1)] && s[2 * i + 1] == s[2..][2 * (i - 1) + 1];
    }
  }

  /** Go's `hex.EncodeToString` is `Encode(k, false)`. */
  function Encode(k: seq<byte>, upper: bool): (s: string)
    ensures |s| == 2 * |k| && AllHexDigits(s)
  {
    if k == [] then ""
    else [HexDigit(k[0] / 16, upper), HexDigit(k[0] % 16, upper)] + Encode(k[1..], upper)
  }

  /** The error names the first character of the input that is not a hex digit. */
  lemma {:induction false} DecodeReportsFirstInvalid(s: string, k: nat)
    requires k < |s| && !IsHexDigit(s[k])
    requires AllHexDigits(s[..k])
    ensures Decode(s) == Failure(InvalidByte(s[k]))
    decreases |s|
  {
    if k >= 2 {
      assert s[2..][..k - 2] == s[..k][2..];
      DecodeReportsFirstInvalid(s[2..], k - 2);
    } else if k == 1 {
      assert IsHexDigit(s[..k][0]);
    }
  }

  /** Round trip: decoding the Base16 text of any byte string, in either case,
      gives back that byte string. */
  lemma {:induction false} DecodeEncode(k: seq<byte>, upper: bool)
    ensures Decode(Encode(k, upper)) == Success(k)
  {
    if k != [] {
      var s := Encode(k, upper);
      assert s[2..] == Encode(k[1..], upper);
      DecodeEncode(k[1..], upper);
      assert DigitValue(s[0]) == k[0] / 16 && DigitValue(s[1]) == k[0] % 16;
      assert 16 * (k[0] / 16) + k[0] % 16 == k[0];
      assert [k[0]] + k[1..] == k;
    }
  }
}
