/** Bytes, and the hexadecimal text they travel as.

    A Go string is a sequence of bytes; here it is a `string` holding one character per byte. */
module Hex {
  import opened Wrappers

  type Byte = n: int | 0 <= n < 256
  type Bytes = seq<Byte>

  /** Length of a SHA-256 digest written in lowercase hex. */
  const HASH_LEN := 64

  /** The value of one hex digit. Like `encoding/hex`, both letter cases are read. */
  function Nibble(c: char): (n: Option<int>)
    ensures n.Some? ==> 0 <= n.value < 16
  {
    if '0' <= c <= '9' then Some(c as int - '0' as int)
    else if 'a' <= c <= 'f' then Some(c as int - 'a' as int + 10)
    else if 'A' <= c <= 'F' then Some(c as int - 'A' as int + 10)
    else None
  }

  function Digit(n: int): char
    requires 0 <= n < 16
  {
    if n < 10 then ('0' as int + n) as char else ('a' as int + n - 10) as char
  }

  predicate IsLowerHex(c: char) {
    '0' <= c <= '9' || 'a' <= c <= 'f'
  }

  function Encode(b: Bytes): string {
    if b == [] then "" else [Digit(b[0] / 16), Digit(b[0] % 16)] + Encode(b[1..])
  }

  /** Fails on an odd number of digits and on any character that is not a hex digit. */
  function Decode(s: string): Option<Bytes> {
    if s == "" then Some([])
    else if |s| == 1 then None
    else
      var rest := Decode(s[2..]);
      if Nibble(s[0]).None? || Nibble(s[1]).None? || rest.None? then None
      else Some([16 * Nibble(s[0]).value + Nibble(s[1]).value] + rest.value)
  }

  /** Exactly 64 lowercase hex digits: the only form in which a digest names a file. */
  predicate IsValidHash(s: string) {
    |s| == HASH_LEN && forall i :: 0 <= i < |s| ==> IsLowerHex(s[i])
  }

  lemma {:induction false} DecodeEncode(b: Bytes)
    ensures Decode(Encode(b)) == Some(b)
    ensures |Encode(b)| == 2 * |b|
    ensures forall i :: 0 <= i < |Encode(b)| ==> IsLowerHex(Encode(b)[i])
  {
    if b == [] {
    } else {
      DecodeEncode(b[1..]);
      var s := Encode(b);
      assert s[2..] == Encode(b[1..]);
      forall i | 0 <= i < |s| ensures IsLowerHex(s[i]) {
        if i >= 2 { assert s[i] == Encode(b[1..])[i - 2]; }
      }
      assert b == [b[0]] + b[1..];
    }
  }

  lemma {:induction false} DecodeLength(s: string)
    requires Decode(s).Some?
    ensures |s| == 2 * |Decode(s).value|
  {
    if |s| < 2 {
    } else {
      DecodeLength(s[2..]);
    }
  }

  lemma DigitOfNibble(c: char)
    requires IsLowerHex(c)
    ensures Nibble(c).Some? && Digit(Nibble(c).value) == c
  {
  }

  /** Lowercase text of even length is recovered from the bytes it decodes to, so decoding is injective on it. */
  lemma {:induction false} EncodeDecode(s: string)
    requires |s| % 2 == 0 && forall i :: 0 <= i < |s| ==> IsLowerHex(s[i])
    ensures Decode(s).Some? && Encode(Decode(s).value) == s
  {
    if s == "" {
    } else {
      EncodeDecode(s[2..]);
      DigitOfNibble(s[0]);
      DigitOfNibble(s[1]);
      hide Nibble, Digit, IsLowerHex;
      var b := Decode(s).value;
      var hi, lo := Nibble(s[0]).value, Nibble(s[1]).value;
      assert b[0] == 16 * hi + lo && b[1..] == Decode(s[2..]).value;
      assert Encode(b) == [Digit(hi), Digit(lo)] + s[2..];
    }
  }

  lemma FrontOfConcat<T>(s: seq<T>, t: seq<T>)
    requires |s| >= 2
    ensures var u := s + t; u[0] == s[0] && u[1] == s[1] && u[2..] == s[2..] + t
  {
  }

  lemma {:induction false} DecodeConcat(s: string, t: string)
    requires Decode(s).Some? && Decode(t).Some?
    ensures Decode(s + t) == Some(Decode(s).value + Decode(t).value)
  {
    hide Nibble;
    if s == "" {
      assert s + t == t && Decode(s).value + Decode(t).value == Decode(t).value;
    } else {
      DecodeConcat(s[2..], t);
      FrontOfConcat(s, t);
      var head: Bytes := [16 * Nibble(s[0]).value + Nibble(s[1]).value];
      Regroup(head, Decode(s[2..]).value, Decode(t).value);
    }
  }
}
