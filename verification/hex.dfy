/** Base16 as Node's `Buffer#toString('hex')` writes it (lower case) and as
    `Buffer.from(s, 'hex')` reads it (either case; decoding stops at the first
    pair that is not two hex digits, and an odd trailing digit is dropped). */
module Hex {

  type byte = b: int | 0 <= b < 256

  predicate IsHexDigit(c: char) {
    '0' <= c <= '9' || 'a' <= c <= 'f' || 'A' <= c <= 'F'
  }

  /** A digit as `toString('hex')` produces it. */
  predicate IsLowerHexDigit(c: char) {
    '0' <= c <= '9' || 'a' <= c <= 'f'
  }

  predicate IsLowerHex(s: string) {
    forall i :: 0 <= i < |s| ==> IsLowerHexDigit(s[i])
  }

  function DigitValue(c: char): (v: nat)
    requires IsHexDigit(c)
    ensures v < 16
  {
    if '0' <= c <= '9' then c as int - '0' as int
    else if 'a' <= c <= 'f' then c as int - 'a' as int + 10
    else c as int - 'A' as int + 10
  }

  function DigitChar(n: nat): (c: char)
    requires n < 16
    ensures IsLowerHexDigit(c) && IsHexDigit(c)
    ensures DigitValue(c) == n
  {
    if n < 10 then ('0' as int + n) as char else ('a' as int + n - 10) as char
  }

  /** `Buffer.from(bytes).toString('hex')`. */
  function Encode(bytes: seq<byte>): (s: string)
    ensures |s| == 2 * |bytes|
    ensures IsLowerHex(s)
  {
    if bytes == [] then ""
    else [DigitChar(bytes[0] / 16), DigitChar(bytes[0] % 16)] + Encode(bytes[1..])
  }

  /** `Buffer.from(s, 'hex')`: reads whole pairs of hex digits from the start
      and stops at the first pair that is not one. */
  function Decode(s: string): (bytes: seq<byte>)
    ensures |bytes| <= |s| / 2
  {
    if |s| < 2 || !IsHexDigit(s[0]) || !IsHexDigit(s[1]) then []
    else [16 * DigitValue(s[0]) + DigitValue(s[1])] + Decode(s[2..])
  }

  /** Byte `i` of the result is the value of the `i`-th pair of digits. */
  lemma {:induction false} DecodePairs(s: string)
    ensures var bytes := Decode(s);
      forall i :: 0 <= i < |bytes| ==>
        IsHexDigit(s[2 * i]) && IsHexDigit(s[2 * i + 1])
        && bytes[i] == 16 * DigitValue(s[2 * i]) + DigitValue(s[2 * i + 1])
  {
    if |s| >= 2 && IsHexDigit(s[0]) && IsHexDigit(s[1]) {
      var t := s[2..];
      DecodePairs(t);
      var bytes := Decode(s);
      var rest := Decode(t);
      assert bytes == [16 * DigitValue(s[0]) + DigitValue(s[1])] + rest;
      forall i | 1 <= i < |bytes|
        ensures IsHexDigit(s[2 * i]) && IsHexDigit(s[2 * i + 1])
        ensures bytes[i] == 16 * DigitValue(s[2 * i]) + DigitValue(s[2 * i + 1])
      {
        var k := i - 1;
        assert bytes[i] == rest[k];
        assert s[2 * i] == t[2 * k] && s[2 * i + 1] == t[2 * k + 1];
      }
    }
  }

  /** Decoding stops only at the end of the string or at a pair that is not two
      hex digits (an odd last character is dropped). */
  lemma {:induction false} DecodeStops(s: string)
    ensures var n := |Decode(s)|;
      2 * n + 2 <= |s| ==> !(IsHexDigit(s[2 * n]) && IsHexDigit(s[2 * n + 1]))
  {
    if |s| >= 2 && IsHexDigit(s[0]) && IsHexDigit(s[1]) {
      var t := s[2..];
      DecodeStops(t);
      var n := |Decode(t)|;
      assert |Decode(s)| == n + 1;
      if 2 * n + 4 <= |s| {
        assert s[2 * n + 2] == t[2 * n] && s[2 * n + 3] == t[2 * n + 1];
      }
    }
  }

  /** Byte `i` is written as the pair at `2 * i`: high digit first. */
  lemma {:induction false} EncodeAt(bytes: seq<byte>)
    ensures forall i :: 0 <= i < |bytes| ==>
      Encode(bytes)[2 * i] == DigitChar(bytes[i] / 16) && Encode(bytes)[2 * i + 1] == DigitChar(bytes[i] % 16)
  {
    if bytes != [] {
      EncodeAt(bytes[1..]);
      var s := Encode(bytes);
      assert s == [DigitChar(bytes[0] / 16), DigitChar(bytes[0] % 16)] + Encode(bytes[1..]);
      forall i | 1 <= i < |bytes|
        ensures s[2 * i] == DigitChar(bytes[i] / 16) && s[2 * i + 1] == DigitChar(bytes[i] % 16)
      {
        assert bytes[1..][i - 1] == bytes[i];
        assert s[2 * i] == Encode(bytes[1..])[2 * (i - 1)];
        assert s[2 * i + 1] == Encode(bytes[1..])[2 * (i - 1) + 1];
      }
    }
  }

  /** Reading back what was written gives the same bytes. */
  lemma {:induction false} DecodeEncode(bytes: seq<byte>)
    ensures Decode(Encode(bytes)) == bytes
  {
    var s := Encode(bytes);
    var d := Decode(s);
    EncodeAt(bytes);
    DecodePairs(s);
    DecodeStops(s);
    assert forall n :: 0 <= n < |bytes| ==> IsHexDigit(s[2 * n]) && IsHexDigit(s[2 * n + 1]);
    assert |d| == |bytes|;
    forall i | 0 <= i < |d| ensures d[i] == bytes[i] {
      assert s[2 * i] == DigitChar(bytes[i] / 16) && s[2 * i + 1] == DigitChar(bytes[i] % 16);
    }
  }

  /** Hex text never contains the `:` that frames an encrypted payload. */
  lemma NoColon(s: string)
    requires IsLowerHex(s)
    ensures ':' !in s
  {
  }
}
