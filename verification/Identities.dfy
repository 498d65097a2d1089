// The SHA-256 identities of the runtime client (src/agent_runtime_client.cpp,
// lengthFramedIdentity, durableMutationOperationIdentity and the content-reference identities).

module Identities {
  import opened Options
  import opened Bytes
  import opened Json

  // ---------------------------------------------------------------------
  // The digest

  /** SHA-256: any function from byte strings to digests; the results assume it injective. */
  type Digest = Octets -> Octets

  ghost predicate Injective(digest: Digest) {
    forall a, b :: digest(a) == digest(b) ==> a == b
  }

  /** QByteArray::toHex */
  function Hex(bytes: Octets): (r: string)
    ensures |r| == 2 * |bytes|
  {
    if bytes == [] then ""
    else [HexDigit(bytes[0] as nat / 16), HexDigit(bytes[0] as nat % 16)] + Hex(bytes[1..])
  }

  lemma {:induction false} HexInjective(a: Octets, b: Octets)
    requires Hex(a) == Hex(b)
    ensures a == b
  {
    if a != [] {
      var x, y := a[0] as nat, b[0] as nat;
      assert Hex(a)[0] == HexDigit(x / 16) && Hex(a)[1] == HexDigit(x % 16);
      assert Hex(b)[0] == HexDigit(y / 16) && Hex(b)[1] == HexDigit(y % 16);
      assert Hex(a)[2..] == Hex(a[1..]) && Hex(b)[2..] == Hex(b[1..]);
      HexInjective(a[1..], b[1..]);
      assert a == [a[0]] + a[1..] && b == [b[0]] + b[1..];
    }
  }

  /** A text without NUL characters. */
  type NulFree = text: string | forall i | 0 <= i < |text| :: text[i] as int != 0

  const BINDING_DOMAIN: NulFree := "command-output-artifact-page-binding"
  const PREVIEW_DOMAIN: NulFree := "content-preview:sha256:"
  const LIMITS_DOMAIN: NulFree := "content-inline-limits:sha256:"
  const CURSOR_DOMAIN: NulFree := "content-reference-cursor:sha256:"
  const PAGE_DOMAIN: NulFree := "content-reference-page:sha256:"
  const MUTATION_DOMAIN: NulFree := "aegisy-durable-mutation-operation/0.1"
  const TIMELINE_EVENT_DOMAIN: NulFree := "aegisy-timeline-event/0.1"

  /** The domains the digests are taken in. */
  datatype Domain = Binding | Preview | Limits | Cursor | Page | Mutation | TimelineEvent
  {
    /** The NUL-terminated text in front of the hashed components. */
    function Text(): NulFree {
      match this
      case Binding => BINDING_DOMAIN
      case Preview => PREVIEW_DOMAIN
      case Limits => LIMITS_DOMAIN
      case Cursor => CURSOR_DOMAIN
      case Page => PAGE_DOMAIN
      case Mutation => MUTATION_DOMAIN
      case TimelineEvent => TIMELINE_EVENT_DOMAIN
    }

    /** The text in front of the hexadecimal digest. */
    function Prefix(): string {
      match this
      case Binding => "content-reference-binding:sha256:"
      case Mutation => "mutation-operation:sha256:"
      case TimelineEvent => "event:sha256:"
      case _ => Text()
    }
  }

  function Material(domain: Domain, components: seq<Octets>): Octets {
    DomainMaterial(Utf8(domain.Text()), components)
  }

  function Identity(domain: Domain, components: seq<Octets>, digest: Digest): string {
    domain.Prefix() + Hex(digest(Material(domain, components)))
  }

  lemma NoNulInChar(c: char)
    requires c as int != 0
    ensures 0 !in Utf8Char(c)
  {
    var r := Utf8Char(c);
    assert r[0] != 0;
    assert forall i | 1 <= i < |r| :: r[i] >= 0x80;
  }

  lemma {:induction false} NoNulCharacters(text: string)
    requires forall i | 0 <= i < |text| :: text[i] as int != 0
    ensures 0 !in Utf8(text)
  {
    if text != "" {
      NoNulCharacters(text[1..]);
      NoNulInChar(text[0]);
    }
  }

  /** The domain texts are free of NUL. */
  lemma DomainsAreNulFree(domain: Domain)
    ensures 0 !in Utf8(domain.Text())
  {
    NoNulCharacters(domain.Text());
  }

  lemma DomainsDistinct(p: Domain, q: Domain)
    requires p != q
    ensures p.Text() != q.Text()
  {
    assert |Binding.Text()| == 36 && |Preview.Text()| == 23 && |Limits.Text()| == 29;
    assert |Cursor.Text()| == 32 && |Page.Text()| == 30 && |Mutation.Text()| == 37;
    assert |TimelineEvent.Text()| == 25;
  }

  lemma MaterialInjective(p: Domain, a: seq<Octets>, q: Domain, b: seq<Octets>)
    requires Sized(a) && Sized(b)
    requires Material(p, a) == Material(q, b)
    ensures p == q && a == b
  {
    DomainsAreNulFree(p);
    DomainsAreNulFree(q);
    DomainMaterialInjective(Utf8(p.Text()), a, Utf8(q.Text()), b);
    Utf8Injective(p.Text(), q.Text());
    if p != q {
      DomainsDistinct(p, q);
    }
  }

  /** An identity determines its component list. */
  lemma IdentityInjective(domain: Domain, a: seq<Octets>, b: seq<Octets>, digest: Digest)
    requires Injective(digest) && Sized(a) && Sized(b)
    requires Identity(domain, a, digest) == Identity(domain, b, digest)
    ensures a == b
  {
    var x, y := digest(Material(domain, a)), digest(Material(domain, b));
    SplitConcatenation(domain.Prefix(), Hex(x), domain.Prefix(), Hex(y));
    HexInjective(x, y);
    MaterialInjective(domain, a, domain, b);
  }

  /** Different domains never share a digest, whatever their components. */
  lemma DomainsDisjoint(p: Domain, a: seq<Octets>, q: Domain, b: seq<Octets>, digest: Digest)
    requires Injective(digest) && Sized(a) && Sized(b)
    requires p != q
    ensures digest(Material(p, a)) != digest(Material(q, b))
  {
    if Material(p, a) == Material(q, b) {
      MaterialInjective(p, a, q, b);
    }
  }

  // ---------------------------------------------------------------------
  // Typed components

  /** The value that stands for an absent number; no accepted number reaches it. */
  const NULL_NUMBER := 0xFFFF_FFFF_FFFF_FFFF

  /** What an identity function demands of a hashed member and how it hashes it. */
  datatype Kind = TagKind | TextKind | NumberKind | OptionalKind | FlagKind | DigestKind

  function OptionalNumber(value: Json): (r: Option<nat>)
    ensures r.Some? ==> r.value < TWO_TO_THE_64
  {
    if value.Null? then Some(NULL_NUMBER) else ReadUnsigned(value)
  }

  predicate IsLatin(text: string) {
    forall i | 0 <= i < |text| :: text[i] as int < 0x100
  }

  /** A QByteArrayLiteral: one byte for each character. */
  function Latin(text: string): (r: Octets)
    requires IsLatin(text)
    ensures |r| == |text|
  {
    seq(|text|, i requires 0 <= i < |text| => text[i] as int as byte)
  }

  /** The bytes of a component; None when the value has the wrong type. */
  function Encoded(kind: Kind, value: Json, digest: Digest): Option<Octets> {
    match kind
    case TagKind => if value.Text? && IsLatin(value.text) then Some(Latin(value.text)) else None
    case TextKind => if value.Text? then Some(Utf8(value.text)) else None
    case NumberKind =>
      (match ReadUnsigned(value) case None => None case Some(n) => Some(UnsignedBigEndian(n)))
    case OptionalKind =>
      (match OptionalNumber(value) case None => None case Some(n) => Some(UnsignedBigEndian(n)))
    case FlagKind => if value.Boolean? then Some([if value.value then 1 else 0]) else None
    case DigestKind => if value.Text? then Some(digest(Utf8(value.text))) else None
  }

  function EncodedAll(kinds: seq<Kind>, values: seq<Json>, digest: Digest): (r: Option<seq<Octets>>)
    requires |kinds| == |values|
    ensures r.Some? ==> |r.value| == |kinds|
    ensures r.Some? ==> forall i | 0 <= i < |kinds| :: Encoded(kinds[i], values[i], digest) == Some(r.value[i])
  {
    if kinds == [] then Some([])
    else
      match (Encoded(kinds[0], values[0], digest), EncodedAll(kinds[1..], values[1..], digest))
      case (Some(first), Some(rest)) => Some([first] + rest)
      case _ => None
  }

  /** A hashed text takes fewer than 2^64 bytes in UTF-8, as every QByteArray does. */
  predicate SizedText(value: Json) {
    value.Text? ==> |value.text| < TWO_TO_THE_64 / 4
  }

  predicate SizedDigest(value: Json, digest: Digest) {
    value.Text? ==> |digest(Utf8(value.text))| < TWO_TO_THE_64
  }

  predicate SizedValues(kinds: seq<Kind>, values: seq<Json>, digest: Digest) {
    && (forall value | value in values :: SizedText(value))
    && (DigestKind in kinds ==> forall value | value in values :: SizedDigest(value, digest))
  }

  lemma EncodedInjective(kind: Kind, x: Json, y: Json, digest: Digest)
    requires Injective(digest)
    requires Encoded(kind, x, digest).Some? && Encoded(kind, x, digest) == Encoded(kind, y, digest)
    ensures x == y
  {
    match kind {
      case TagKind =>
        var a, b := Latin(x.text), Latin(y.text);
        assert |x.text| == |y.text|;
        forall i | 0 <= i < |x.text|
          ensures x.text[i] == y.text[i]
        {
          assert a[i] == b[i];
          assert a[i] == x.text[i] as int as byte && b[i] == y.text[i] as int as byte;
          assert x.text[i] as int == y.text[i] as int;
        }
      case TextKind => Utf8Injective(x.text, y.text);
      case NumberKind => UnsignedBigEndianInjective(ReadUnsigned(x).value, ReadUnsigned(y).value);
      case OptionalKind => UnsignedBigEndianInjective(OptionalNumber(x).value, OptionalNumber(y).value);
      case FlagKind =>
        assert Encoded(kind, x, digest).value[0] == Encoded(kind, y, digest).value[0];
      case DigestKind => Utf8Injective(x.text, y.text);
    }
  }

  lemma EncodedSized(kinds: seq<Kind>, values: seq<Json>, digest: Digest)
    requires |kinds| == |values| && SizedValues(kinds, values, digest) && EncodedAll(kinds, values, digest).Some?
    ensures Sized(EncodedAll(kinds, values, digest).value)
  {
    var components := EncodedAll(kinds, values, digest).value;
    forall i | 0 <= i < |components|
      ensures |components[i]| < TWO_TO_THE_64
    {
      assert SizedText(values[i]);
      assert kinds[i] == DigestKind ==> SizedDigest(values[i], digest);
      assert Encoded(kinds[i], values[i], digest) == Some(components[i]);
    }
  }

  /** The identity of the values; it is empty when one of them has the wrong type. */
  function IdentityOf(domain: Domain, kinds: seq<Kind>, values: seq<Json>, digest: Digest): string
    requires |kinds| == |values|
  {
    match EncodedAll(kinds, values, digest)
    case None => ""
    case Some(components) => Identity(domain, components, digest)
  }

  lemma EncodedAt(domain: Domain, kinds: seq<Kind>, values: seq<Json>, digest: Digest, i: nat)
    requires i < |kinds| == |values|
    requires IdentityOf(domain, kinds, values, digest) != ""
    ensures Encoded(kinds[i], values[i], digest).Some?
  {
  }

  lemma SameComponents(domain: Domain, k: seq<Kind>, v: seq<Json>, l: seq<Kind>, w: seq<Json>, digest: Digest)
    requires |k| == |v| && |l| == |w|
    requires Injective(digest) && SizedValues(k, v, digest) && SizedValues(l, w, digest)
    requires IdentityOf(domain, k, v, digest) != ""
    requires IdentityOf(domain, k, v, digest) == IdentityOf(domain, l, w, digest)
    ensures EncodedAll(k, v, digest).Some? && EncodedAll(k, v, digest) == EncodedAll(l, w, digest)
    ensures |k| == |l|
  {
    EncodedSized(k, v, digest);
    EncodedSized(l, w, digest);
    IdentityInjective(domain, EncodedAll(k, v, digest).value, EncodedAll(l, w, digest).value, digest);
  }

  /** Equal non-empty identities over the same kinds come from equal values. */
  lemma IdentityOfInjective(domain: Domain, kinds: seq<Kind>, v: seq<Json>, w: seq<Json>, digest: Digest)
    requires |kinds| == |v| == |w|
    requires Injective(digest) && SizedValues(kinds, v, digest) && SizedValues(kinds, w, digest)
    requires IdentityOf(domain, kinds, v, digest) != ""
    requires IdentityOf(domain, kinds, v, digest) == IdentityOf(domain, kinds, w, digest)
    ensures v == w
  {
    SameComponents(domain, kinds, v, kinds, w, digest);
    forall i | 0 <= i < |v|
      ensures v[i] == w[i]
    {
      assert Encoded(kinds[i], v[i], digest) == Encoded(kinds[i], w[i], digest);
      EncodedInjective(kinds[i], v[i], w[i], digest);
    }
  }
}
