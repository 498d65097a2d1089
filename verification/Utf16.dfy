// isUnicodeScalarString (src/agent_runtime_client.cpp): which sequences of
// 16-bit units are the UTF-16 form of a text, as section 2 of RFC 2781 defines it.

module Utf16 {

  newtype unit = n: int | 0 <= n < 0x1_0000

  predicate IsHighSurrogate(u: unit) {
    0xD800 <= u < 0xDC00
  }

  predicate IsLowSurrogate(u: unit) {
    0xDC00 <= u < 0xE000
  }

  // ---------------------------------------------------------------------
  // The reference: encoding and decoding

  /** Section 2.1 of RFC 2781. */
  function EncodeChar(c: char): (r: seq<unit>)
    ensures 1 <= |r| <= 2
  {
    var u := c as int;
    if u < 0x1_0000 then [u as unit]
    else
      var v := u - 0x1_0000;
      [(0xD800 + v / 0x400) as unit, (0xDC00 + v % 0x400) as unit]
  }

  function Encode(text: string): (r: seq<unit>)
    ensures |r| == 0 <==> text == ""
  {
    if text == "" then [] else EncodeChar(text[0]) + Encode(text[1..])
  }

  /** Section 2.2 of RFC 2781, on a pair. */
  function PairValue(high: unit, low: unit): char
    requires IsHighSurrogate(high) && IsLowSurrogate(low)
  {
    (0x1_0000 + (high as int - 0xD800) * 0x400 + (low as int - 0xDC00)) as char
  }

  /** Every surrogate in the units belongs to a high-low pair. */
  predicate WellPaired(units: seq<unit>)
  {
    if units == [] then true
    else if IsHighSurrogate(units[0]) then
      |units| >= 2 && IsLowSurrogate(units[1]) && WellPaired(units[2..])
    else !IsLowSurrogate(units[0]) && WellPaired(units[1..])
  }

  function Decode(units: seq<unit>): string
    requires WellPaired(units)
  {
    if units == [] then ""
    else if IsHighSurrogate(units[0]) then [PairValue(units[0], units[1])] + Decode(units[2..])
    else [units[0] as char] + Decode(units[1..])
  }

  // ---------------------------------------------------------------------
  // The laws

  lemma PairRoundTrip(high: unit, low: unit)
    requires IsHighSurrogate(high) && IsLowSurrogate(low)
    ensures EncodeChar(PairValue(high, low)) == [high, low]
  {
    var v := (high as int - 0xD800) * 0x400 + (low as int - 0xDC00);
    assert v / 0x400 == high as int - 0xD800 && v % 0x400 == low as int - 0xDC00;
  }

  lemma {:induction false} EncodeDecode(units: seq<unit>)
    requires WellPaired(units)
    ensures Encode(Decode(units)) == units
  {
    if units == [] {
    } else if IsHighSurrogate(units[0]) {
      PairRoundTrip(units[0], units[1]);
      EncodeDecode(units[2..]);
      assert units == [units[0], units[1]] + units[2..];
      assert Decode(units)[1..] == Decode(units[2..]);
    } else {
      EncodeDecode(units[1..]);
      assert Decode(units)[1..] == Decode(units[1..]);
    }
  }

  lemma {:induction false} DecodeEncode(text: string)
    ensures WellPaired(Encode(text)) && Decode(Encode(text)) == text
  {
    if text != "" {
      DecodeEncode(text[1..]);
      var units := Encode(text);
      if |EncodeChar(text[0])| == 2 {
        assert units[2..] == Encode(text[1..]);
      } else {
        assert units[1..] == Encode(text[1..]);
      }
    }
  }

  /** Well-paired units are exactly the encodings, and each encodes one text only. */
  lemma WellPairedIffEncoding(units: seq<unit>)
    ensures WellPaired(units) <==> exists text :: Encode(text) == units
    ensures forall s, t | Encode(s) == units && Encode(t) == units :: s == t
  {
    if WellPaired(units) {
      EncodeDecode(units);
    }
    forall s | Encode(s) == units
      ensures WellPaired(units) && s == Decode(units)
    {
      DecodeEncode(s);
    }
  }

  // ---------------------------------------------------------------------
  // isUnicodeScalarString

  /** The scan accepts a string exactly when it is the UTF-16 form of some text. */
  method IsUnicodeScalarString(value: seq<unit>) returns (ok: bool)
    ensures ok <==> exists text :: Encode(text) == value
  {
    WellPairedIffEncoding(value);
    var index := 0;
    while index < |value|
      invariant 0 <= index <= |value|
      invariant WellPaired(value) <==> WellPaired(value[index..])
    {
      var character := value[index];
      if IsHighSurrogate(character) {
        if index + 1 >= |value| || !IsLowSurrogate(value[index + 1]) {
          return false;
        }
        assert value[index..][2..] == value[index + 2..];
        index := index + 1;
      } else if IsLowSurrogate(character) {
        return false;
      } else {
        assert value[index..][1..] == value[index + 1..];
      }
      index := index + 1;
    }
    return true;
  }
}
