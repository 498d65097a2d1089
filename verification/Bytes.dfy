// Byte strings as the runtime client hashes them: big-endian length prefixes,
// length-framed component lists and the UTF-8 form of a text
// (src/agent_runtime_client.cpp, unsignedBigEndian .. lengthFramedIdentity).

module Bytes {

  newtype byte = n: int | 0 <= n < 0x100

  type Octets = seq<byte>

  const TWO_TO_THE_64: int := 0x1_0000_0000_0000_0000

  /** A lower-case hexadecimal digit. */
  function HexDigit(d: nat): char
    requires d < 16
  {
    if d < 10 then ('0' as int + d) as char else ('a' as int + d - 10) as char
  }

  const HEX_DIGITS := "0123456789abcdef"

  lemma HexDigitIs(d: nat)
    requires d < 16
    ensures HexDigit(d) == HEX_DIGITS[d]
  {
  }

  // ---------------------------------------------------------------------
  // unsignedBigEndian

  /** The last `count` base-256 digits of `value`, most significant first. */
  function BigEndian(value: nat, count: nat): (r: Octets)
    ensures |r| == count
  {
    if count == 0 then [] else BigEndian(value / 0x100, count - 1) + [(value % 0x100) as byte]
  }

  /** The eight bytes of a quint64. */
  function UnsignedBigEndian(value: nat): (r: Octets)
    ensures |r| == 8
  {
    BigEndian(value, 8)
  }

  function Power256(count: nat): (r: nat)
    ensures r > 0
  {
    if count == 0 then 1 else 0x100 * Power256(count - 1)
  }

  /** Reading the digits back: the inverse of BigEndian on values that fit. */
  function FromBigEndian(digits: Octets): nat
  {
    if digits == [] then 0
    else 0x100 * FromBigEndian(digits[..|digits| - 1]) + digits[|digits| - 1] as int
  }

  lemma {:induction false} BigEndianRoundTrip(value: nat, count: nat)
    requires value < Power256(count)
    ensures FromBigEndian(BigEndian(value, count)) == value
  {
    if count > 0 {
      BigEndianRoundTrip(value / 0x100, count - 1);
      var digits := BigEndian(value, count);
      assert digits[..|digits| - 1] == BigEndian(value / 0x100, count - 1);
    }
  }

  lemma UnsignedBigEndianRoundTrip(value: nat)
    requires value < TWO_TO_THE_64
    ensures FromBigEndian(UnsignedBigEndian(value)) == value
  {
    assert Power256(8) == TWO_TO_THE_64 by {
      assert Power256(2) == 0x1_0000;
      assert Power256(4) == 0x1_0000_0000;
      assert Power256(6) == 0x1_0000_0000_0000;
    }
    BigEndianRoundTrip(value, 8);
  }

  lemma UnsignedBigEndianInjective(a: nat, b: nat)
    requires a < TWO_TO_THE_64 && b < TWO_TO_THE_64
    requires UnsignedBigEndian(a) == UnsignedBigEndian(b)
    ensures a == b
  {
    UnsignedBigEndianRoundTrip(a);
    UnsignedBigEndianRoundTrip(b);
  }

  // ---------------------------------------------------------------------
  // appendLengthFramed

  /** A component behind its own length; the length is cast to quint64. */
  function LengthFramed(component: Octets): Octets
  {
    UnsignedBigEndian(|component| % TWO_TO_THE_64) + component
  }

  function LengthFramedAll(components: seq<Octets>): Octets
  {
    if components == [] then [] else LengthFramed(components[0]) + LengthFramedAll(components[1..])
  }

  /** Every component is shorter than 2^64 bytes, as every QByteArray is. */
  ghost predicate Sized(components: seq<Octets>)
  {
    forall i | 0 <= i < |components| :: |components[i]| < TWO_TO_THE_64
  }

  /** Appending the components one after the other yields the framed list. */
  method AppendLengthFramed(prefix: Octets, components: seq<Octets>) returns (material: Octets)
    ensures material == prefix + LengthFramedAll(components)
  {
    material := prefix;
    var i := 0;
    while i < |components|
      invariant 0 <= i <= |components|
      invariant material + LengthFramedAll(components[i..]) == prefix + LengthFramedAll(components)
    {
      assert components[i..][1..] == components[i + 1..];
      material := material + UnsignedBigEndian(|components[i]| % TWO_TO_THE_64);
      material := material + components[i];
      i := i + 1;
    }
  }

  /** Equal concatenations whose first parts are equally long agree part by part. */
  lemma SplitConcatenation<T>(a: seq<T>, b: seq<T>, c: seq<T>, d: seq<T>)
    requires |a| == |c|
    requires a + b == c + d
    ensures a == c && b == d
  {
    assert (a + b)[..|a|] == a && (c + d)[..|c|] == c;
    assert (a + b)[|a|..] == b && (c + d)[|c|..] == d;
  }

  lemma SplitThree(a: Octets, b: Octets, c: Octets, p: Octets, q: Octets, r: Octets)
    requires |a| == |p| && (a + b) + c == (p + q) + r
    ensures a == p && b + c == q + r
  {
    assert a + (b + c) == (a + b) + c && p + (q + r) == (p + q) + r;
    SplitConcatenation(a, b + c, p, q + r);
  }

  lemma FrameOfSized(component: Octets)
    requires |component| < TWO_TO_THE_64
    ensures LengthFramed(component) == UnsignedBigEndian(|component|) + component
  {
    assert |component| % TWO_TO_THE_64 == |component|;
  }

  /** Two framed components with whatever follows them are told apart from the front. */
  lemma FirstFrame(a: Octets, b: Octets, restA: Octets, restB: Octets)
    requires |a| < TWO_TO_THE_64 && |b| < TWO_TO_THE_64
    requires LengthFramed(a) + restA == LengthFramed(b) + restB
    ensures a == b && restA == restB
  {
    FrameOfSized(a);
    FrameOfSized(b);
    SplitThree(UnsignedBigEndian(|a|), a, restA, UnsignedBigEndian(|b|), b, restB);
    UnsignedBigEndianInjective(|a|, |b|);
    SplitConcatenation(a, restA, b, restB);
  }

  /** A framed list determines its components, however many there are. */
  lemma {:induction false} LengthFramedAllInjective(a: seq<Octets>, b: seq<Octets>)
    requires Sized(a) && Sized(b)
    requires LengthFramedAll(a) == LengthFramedAll(b)
    ensures a == b
  {
    if a == [] || b == [] {
      assert a == [] && b == [];
    } else {
      FirstFrame(a[0], b[0], LengthFramedAll(a[1..]), LengthFramedAll(b[1..]));
      LengthFramedAllInjective(a[1..], b[1..]);
      assert a == [a[0]] + a[1..] && b == [b[0]] + b[1..];
    }
  }

  // ---------------------------------------------------------------------
  // Domain separation

  /** A domain prefix followed by its NUL terminator and the framed components. */
  function DomainMaterial(domain: Octets, components: seq<Octets>): Octets
  {
    domain + [0] + LengthFramedAll(components)
  }

  /** The first NUL ends the domain. */
  lemma FirstNul(p: Octets, a: Octets, q: Octets, b: Octets)
    requires 0 !in p && 0 !in q
    requires p + [0] + a == q + [0] + b
    ensures p == q && a == b
  {
    var whole := p + [0] + a;
    assert whole[|p|] == 0 && whole[|q|] == 0;
    SplitConcatenation(p + [0], a, q + [0], b);
    SplitConcatenation(p, [0], q, [0]);
  }

  /** NUL-free domains never share a material, and within a domain the material fixes the components. */
  lemma DomainMaterialInjective(p: Octets, a: seq<Octets>, q: Octets, b: seq<Octets>)
    requires 0 !in p && 0 !in q
    requires Sized(a) && Sized(b)
    requires DomainMaterial(p, a) == DomainMaterial(q, b)
    ensures p == q && a == b
  {
    FirstNul(p, LengthFramedAll(a), q, LengthFramedAll(b));
    LengthFramedAllInjective(a, b);
  }

  // ---------------------------------------------------------------------
  // UTF-8 (QString::toUtf8 on text made of Unicode scalar values)

  function Utf8Char(c: char): (r: Octets)
    ensures 1 <= |r| <= 4
  {
    var u := c as int;
    if u < 0x80 then [u as byte]
    else if u < 0x800 then [(0xC0 + u / 0x40) as byte, (0x80 + u % 0x40) as byte]
    else if u < 0x1_0000 then
      [(0xE0 + u / 0x1000) as byte, (0x80 + u / 0x40 % 0x40) as byte, (0x80 + u % 0x40) as byte]
    else
      [(0xF0 + u / 0x4_0000) as byte, (0x80 + u / 0x1000 % 0x40) as byte,
       (0x80 + u / 0x40 % 0x40) as byte, (0x80 + u % 0x40) as byte]
  }

  function Utf8(text: string): (r: Octets)
    ensures |text| <= |r| <= 4 * |text|
  {
    if text == "" then [] else Utf8Char(text[0]) + Utf8(text[1..])
  }

  function Utf8CharSize(c: char): (n: nat)
    ensures 1 <= n <= 4
  {
    if c as int < 0x80 then 1 else if c as int < 0x800 then 2 else if c as int < 0x1_0000 then 3 else 4
  }

  /** The number of bytes that a text takes. */
  function Utf8Size(text: string): (n: nat)
    ensures |text| <= n <= 4 * |text|
    decreases |text|
  {
    if text == "" then 0 else Utf8CharSize(text[0]) + Utf8Size(text[1..])
  }

  lemma {:induction false} Utf8SizeIsLength(text: string)
    ensures Utf8Size(text) == |Utf8(text)|
    decreases |text|
  {
    if text != "" {
      Utf8SizeIsLength(text[1..]);
    }
  }

  lemma {:induction false} Utf8Append(a: string, b: string)
    ensures Utf8(a + b) == Utf8(a) + Utf8(b)
  {
    if a == "" {
      assert a + b == b;
    } else {
      assert (a + b)[1..] == a[1..] + b;
      Utf8Append(a[1..], b);
    }
  }

  /** The code point that a UTF-8 sequence encodes. */
  function Utf8Value(r: Octets): int
    requires 1 <= |r| <= 4
  {
    if |r| == 1 then r[0] as int
    else if |r| == 2 then (r[0] as int - 0xC0) * 0x40 + (r[1] as int - 0x80)
    else if |r| == 3 then
      (r[0] as int - 0xE0) * 0x1000 + (r[1] as int - 0x80) * 0x40 + (r[2] as int - 0x80)
    else
      (r[0] as int - 0xF0) * 0x4_0000 + (r[1] as int - 0x80) * 0x1000
      + (r[2] as int - 0x80) * 0x40 + (r[3] as int - 0x80)
  }

  /** The lead byte says how long the sequence is. */
  function Utf8Length(lead: byte): nat
  {
    if lead < 0x80 then 1 else if lead < 0xE0 then 2 else if lead < 0xF0 then 3 else 4
  }

  lemma Utf8TwoBytes(u: nat)
    requires 0x80 <= u < 0x800
    ensures u / 0x40 * 0x40 + u % 0x40 == u && 2 <= u / 0x40 < 0x20
  {
  }

  lemma Utf8ThreeBytes(u: nat)
    requires 0x800 <= u < 0x1_0000
    ensures u / 0x1000 * 0x1000 + u / 0x40 % 0x40 * 0x40 + u % 0x40 == u && u / 0x1000 < 0x10
  {
    var v := u / 0x40;
    assert v / 0x40 == u / 0x1000;
    assert u == v * 0x40 + u % 0x40 && v == v / 0x40 * 0x40 + v % 0x40;
  }

  lemma Utf8FourBytes(u: nat)
    requires 0x1_0000 <= u < 0x11_0000
    ensures u / 0x4_0000 * 0x4_0000 + u / 0x1000 % 0x40 * 0x1000 + u / 0x40 % 0x40 * 0x40 + u % 0x40 == u
    ensures u / 0x4_0000 < 5
  {
    var v := u / 0x40;
    assert v / 0x40 == u / 0x1000 && v / 0x1000 == u / 0x4_0000;
    var w := v / 0x40;
    assert w / 0x40 == u / 0x4_0000;
    assert u == v * 0x40 + u % 0x40 && v == w * 0x40 + v % 0x40 && w == w / 0x40 * 0x40 + w % 0x40;
  }

  lemma Utf8CharDecodes(c: char)
    ensures Utf8Length(Utf8Char(c)[0]) == |Utf8Char(c)|
    ensures Utf8Value(Utf8Char(c)) == c as int
  {
    var u := c as int;
    if 0x80 <= u < 0x800 {
      Utf8TwoBytes(u);
    } else if 0x800 <= u < 0x1_0000 {
      Utf8ThreeBytes(u);
    } else if 0x1_0000 <= u {
      Utf8FourBytes(u);
    }
  }

  /** The form of a character in UTF-8 (RFC 3629, section 3): its length, its lead byte and its continuation bytes. */
  lemma Utf8CharForm(c: char)
    ensures var r := Utf8Char(c);
            && |r| == (if c as int < 0x80 then 1 else if c as int < 0x800 then 2 else if c as int < 0x1_0000 then 3 else 4)
            && (if |r| == 1 then r[0] < 0x80 else if |r| == 2 then 0xC0 <= r[0] < 0xE0
                else if |r| == 3 then 0xE0 <= r[0] < 0xF0 else 0xF0 <= r[0] < 0xF8)
            && (forall i | 1 <= i < |r| :: 0x80 <= r[i] < 0xC0)
            && Utf8Value(r) == c as int
  {
    Utf8CharDecodes(c);
  }

  lemma Utf8FirstChar(a: char, b: char, restA: Octets, restB: Octets)
    requires Utf8Char(a) + restA == Utf8Char(b) + restB
    ensures a == b && restA == restB
  {
    Utf8CharDecodes(a);
    Utf8CharDecodes(b);
    var whole := Utf8Char(a) + restA;
    assert whole[0] == Utf8Char(a)[0] && whole[0] == Utf8Char(b)[0];
    SplitConcatenation(Utf8Char(a), restA, Utf8Char(b), restB);
    assert a as int == b as int;
  }

  /** Texts with the same UTF-8 bytes are the same text. */
  lemma {:induction false} Utf8Injective(a: string, b: string)
    requires Utf8(a) == Utf8(b)
    ensures a == b
  {
    if a == "" || b == "" {
      assert a == "" && b == "";
    } else {
      Utf8FirstChar(a[0], b[0], Utf8(a[1..]), Utf8(b[1..]));
      Utf8Injective(a[1..], b[1..]);
      assert a == [a[0]] + a[1..] && b == [b[0]] + b[1..];
    }
  }
}
