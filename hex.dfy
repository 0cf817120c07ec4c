/** Base 16 encoding as defined in section 8 of RFC 4648: every byte is two
    digits from the alphabet 0-9 A-F, most significant nibble first.  The
    loader decodes case-insensitively (both "ff" and "FF" are 255), which is
    what Go's `hex.DecodeString` does; the encoder, the decoder's inverse,
    writes lower-case digits as Go's `hex.EncodeToString` does. */
module Hex {
  import opened Base

  predicate IsHexDigit(c: char) {
    ('0' <= c <= '9') || ('a' <= c <= 'f') || ('A' <= c <= 'F')
  }

  /** The value of one digit of the alphabet, either case. */
  function DigitValue(c: char): (v: nat)
    requires IsHexDigit(c)
    ensures v < 16
    ensures v < 10 <==> '0' <= c <= '9'
  {
    if '0' <= c <= '9' then c as int - '0' as int
    else if 'a' <= c <= 'f' then c as int - 'a' as int + 10
    else c as int - 'A' as int + 10
  }

  /** The lower-case digit of a nibble. */
  function Digit(v: nat): (c: char)
    requires v < 16
    ensures IsHexDigit(c) && DigitValue(c) == v
    ensures !('A' <= c <= 'F')
  {
    if v < 10 then ('0' as int + v) as char else ('a' as int + v - 10) as char
  }

  /** All characters are digits of the alphabet and they come in pairs. */
  predicate IsHexString(s: string) {
    |s| % 2 == 0 && forall i :: 0 <= i < |s| ==> IsHexDigit(s[i])
  }

  /** The byte spelled by two digits. */
  function PairValue(hi: char, lo: char): (b: Byte)
    requires IsHexDigit(hi) && IsHexDigit(lo)
    ensures b == 16 * DigitValue(hi) + DigitValue(lo)
  {
    (16 * DigitValue(hi) + DigitValue(lo)) as Byte
  }

  /** Decodes a Base 16 string: fails on an odd length or on a character
      outside the alphabet, and otherwise yields one byte per digit pair. */
  function Decode(s: string): (r: Option<seq<Byte>>)
    ensures r.Some? <==> IsHexString(s)
    ensures r.Some? ==> |r.value| == |s| / 2
    ensures r.Some? ==> forall k :: 0 <= k < |r.value| ==>
              r.value[k] == 16 * DigitValue(s[2 * k]) + DigitValue(s[2 * k + 1])
    decreases |s|
  {
    if |s| == 0 then Some([])
    else if |s| == 1 || !IsHexDigit(s[0]) || !IsHexDigit(s[1]) then None
    else
      match Decode(s[2..])
      case None => None
      case Some(rest) => Some([PairValue(s[0], s[1])] + rest)
  }

  /** Encodes bytes as lower-case Base 16. */
  function Encode(bytes: seq<Byte>): (s: string)
    ensures |s| == 2 * |bytes|
  {
    if bytes == [] then []
    else [Digit(bytes[0] / 16), Digit(bytes[0] % 16)] + Encode(bytes[1..])
  }

  /** Lower-cases a letter of the alphabet and leaves every other character alone. */
  function LowerChar(c: char): char {
    if 'A' <= c <= 'F' then (c as int + 32) as char else c
  }

  function Lower(s: string): (r: string)
    ensures |r| == |s|
    ensures forall i :: 0 <= i < |s| ==> r[i] == LowerChar(s[i])
  {
    if s == [] then [] else [LowerChar(s[0])] + Lower(s[1..])
  }

  /** The digit written for a digit's value is that digit, lower-cased. */
  lemma DigitOfValue(c: char)
    requires IsHexDigit(c)
    ensures Digit(DigitValue(c)) == LowerChar(c)
  {
  }

  /** The two digits of a pair are recovered from the byte they spell. */
  lemma PairDigits(hi: char, lo: char)
    requires IsHexDigit(hi) && IsHexDigit(lo)
    ensures PairValue(hi, lo) / 16 == DigitValue(hi) && PairValue(hi, lo) % 16 == DigitValue(lo)
  {
  }

  /** Decoding undoes encoding, for every byte sequence. */
  lemma {:induction false} DecodeEncode(bytes: seq<Byte>)
    ensures Decode(Encode(bytes)) == Some(bytes)
  {
    if bytes != [] {
      var b := bytes[0];
      var hi, lo := Digit(b / 16), Digit(b % 16);
      assert Encode(bytes)[2..] == Encode(bytes[1..]);
      DecodeEncode(bytes[1..]);
      assert PairValue(hi, lo) == b;
      assert bytes == [b] + bytes[1..];
    }
  }

  /** Encoding what was decoded gives back the input with its upper-case
      letters lowered: the decoder is case-insensitive and loses nothing else. */
  lemma {:induction false} EncodeDecode(s: string)
    requires IsHexString(s)
    ensures Decode(s).Some? && Encode(Decode(s).value) == Lower(s)
  {
    if s != [] {
      assert IsHexString(s[2..]) by {
        forall i | 0 <= i < |s[2..]| ensures IsHexDigit(s[2..][i]) {
          assert s[2..][i] == s[i + 2];
        }
      }
      EncodeDecode(s[2..]);
      var b := PairValue(s[0], s[1]);
      assert Decode(s).value == [b] + Decode(s[2..]).value;
      PairDigits(s[0], s[1]);
      DigitOfValue(s[0]);
      DigitOfValue(s[1]);
      assert Lower(s)[2..] == Lower(s[2..]);
    }
  }

  /** A byte sequence that agrees pair by pair with a hex string is its decoding. */
  lemma DecodesTo(s: string, bytes: seq<Byte>)
    requires IsHexString(s) && |bytes| == |s| / 2
    requires forall k :: 0 <= k < |bytes| ==> bytes[k] == PairValue(s[2 * k], s[2 * k + 1])
    ensures Decode(s) == Some(bytes)
  {
    var r := Decode(s);
    assert r.Some?;
    forall k | 0 <= k < |bytes| ensures r.value[k] == bytes[k] {
      assert r.value[k] == 16 * DigitValue(s[2 * k]) + DigitValue(s[2 * k + 1]);
    }
    assert |r.value| == |bytes|;
    assert r.value == bytes;
  }
}
