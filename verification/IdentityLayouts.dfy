// What each identity hashes, in which order (src/agent_runtime_client.cpp,
// durableMutationOperationIdentity, commandArtifactPageBindingIdentity and the
// content-reference identities), stated component by component.

module IdentityLayouts {
  import opened Options
  import opened Bytes
  import opened Json
  import opened Identities
  import opened ContentIdentities

  // ---------------------------------------------------------------------
  // Digests and their texts

  /** The high digit of a byte comes before the low one. */
  lemma {:induction false} HexAt(bytes: Octets, i: nat)
    requires i < |bytes|
    ensures Hex(bytes)[2 * i] == HEX_DIGITS[bytes[i] as int / 16]
    ensures Hex(bytes)[2 * i + 1] == HEX_DIGITS[bytes[i] as int % 16]
  {
    if i == 0 {
      HexDigitIs(bytes[0] as int / 16);
      HexDigitIs(bytes[0] as int % 16);
    } else {
      HexAt(bytes[1..], i - 1);
      assert Hex(bytes)[2 * i] == Hex(bytes[1..])[2 * i - 2];
      assert Hex(bytes)[2 * i + 1] == Hex(bytes[1..])[2 * i - 1];
    }
  }

  lemma HexIsLower(bytes: Octets)
    ensures forall i | 0 <= i < |Hex(bytes)| :: IsLowerHexDigit(Hex(bytes)[i])
  {
    forall i | 0 <= i < |Hex(bytes)|
      ensures IsLowerHexDigit(Hex(bytes)[i])
    {
      HexAt(bytes, i / 2);
    }
  }

  /** Hence a digest of 32 bytes names 64 lower-case digits. */
  lemma DigestText(bytes: Octets)
    requires |bytes| == 32
    ensures IsLowerHexSha256(Hex(bytes))
  {
    HexIsLower(bytes);
  }

  // ---------------------------------------------------------------------
  // Framing

  /** The text in front of each identity's digest, and the text of its domain. */
  predicate InDomain(domain: Domain, prefix: string, text: string) {
    match domain
    case Binding => prefix == "content-reference-binding:sha256:" && text == "command-output-artifact-page-binding"
    case Preview => prefix == "content-preview:sha256:" && text == "content-preview:sha256:"
    case Limits => prefix == "content-inline-limits:sha256:" && text == "content-inline-limits:sha256:"
    case Cursor => prefix == "content-reference-cursor:sha256:" && text == "content-reference-cursor:sha256:"
    case Page => prefix == "content-reference-page:sha256:" && text == "content-reference-page:sha256:"
    case Mutation => prefix == "mutation-operation:sha256:" && text == "aegisy-durable-mutation-operation/0.1"
    case TimelineEvent => prefix == "event:sha256:" && text == "aegisy-timeline-event/0.1"
  }

  lemma DomainTexts(domain: Domain, prefix: string, text: string)
    requires InDomain(domain, prefix, text)
    ensures domain.Prefix() == prefix && domain.Text() == text
  {
  }

  /** What is hashed: the domain, NUL, and every component behind its length. */
  lemma IdentityLayout(domain: Domain, prefix: string, text: string, components: seq<Octets>, digest: Digest)
    requires InDomain(domain, prefix, text)
    ensures Identity(domain, components, digest) == prefix + Hex(digest(Utf8(text) + [0] + LengthFramedAll(components)))
  {
    DomainTexts(domain, prefix, text);
  }

  /** Each component stands behind its length, a big-endian number of eight bytes, in the order of the list. */
  lemma {:induction false} ComponentLies(components: seq<Octets>, i: nat)
    requires Sized(components) && i < |components|
    ensures var front, bytes := LengthFramedAll(components[..i]), LengthFramedAll(components);
            && |front| + 8 + |components[i]| <= |bytes|
            && FromBigEndian(bytes[|front|..|front| + 8]) == |components[i]|
            && bytes[|front| + 8..|front| + 8 + |components[i]|] == components[i]
  {
    if i == 0 {
      FrameOfSized(components[0]);
      UnsignedBigEndianRoundTrip(|components[0]|);
      var bytes := LengthFramedAll(components);
      assert components[..0] == [];
      assert bytes == UnsignedBigEndian(|components[0]|) + components[0] + LengthFramedAll(components[1..]);
      assert bytes[..8] == UnsignedBigEndian(|components[0]|);
      assert bytes[8..8 + |components[0]|] == components[0];
    } else {
      ComponentLies(components[1..], i - 1);
      assert components[..i][1..] == components[1..][..i - 1];
      var frame, rest := LengthFramed(components[0]), LengthFramedAll(components[1..]);
      var inner := LengthFramedAll(components[1..][..i - 1]);
      ShiftedSlice(frame, rest, |inner|, |inner| + 8);
      ShiftedSlice(frame, rest, |inner| + 8, |inner| + 8 + |components[i]|);
    }
  }

  lemma ShiftedSlice(front: Octets, back: Octets, from: nat, to: nat)
    requires from <= to <= |back|
    ensures (front + back)[|front| + from..|front| + to] == back[from..to]
  {
  }

  lemma {:induction false} EncodedAllIs(kinds: seq<Kind>, values: seq<Json>, components: seq<Octets>, digest: Digest)
    requires |kinds| == |values| == |components|
    requires forall i | 0 <= i < |kinds| :: Encoded(kinds[i], values[i], digest) == Some(components[i])
    ensures EncodedAll(kinds, values, digest) == Some(components)
  {
    if kinds != [] {
      EncodedAllIs(kinds[1..], values[1..], components[1..], digest);
      assert components == [components[0]] + components[1..];
    }
  }

  lemma {:induction false} EncodedAllSome(kinds: seq<Kind>, values: seq<Json>, digest: Digest)
    requires |kinds| == |values|
    ensures EncodedAll(kinds, values, digest).Some? <==> forall i | 0 <= i < |kinds| :: Encoded(kinds[i], values[i], digest).Some?
  {
    if kinds != [] {
      EncodedAllSome(kinds[1..], values[1..], digest);
      if EncodedAll(kinds[1..], values[1..], digest).None? {
        var i :| 0 <= i < |kinds[1..]| && Encoded(kinds[1..][i], values[1..][i], digest).None?;
        assert Encoded(kinds[i + 1], values[i + 1], digest).None?;
      }
    }
  }

  lemma NotEmpty(domain: Domain, components: seq<Octets>, digest: Digest)
    ensures Identity(domain, components, digest) != ""
  {
    assert domain.Prefix() != "";
  }

  lemma NamedExactly(domain: Domain, kinds: seq<Kind>, values: seq<Json>, encoded: Option<seq<Octets>>, digest: Digest)
    requires |kinds| == |values| && encoded == EncodedAll(kinds, values, digest)
    ensures IdentityOf(domain, kinds, values, digest) != "" <==> encoded.Some?
  {
    if encoded.Some? {
      NotEmpty(domain, encoded.value, digest);
    }
  }

  lemma IdentityExists(domain: Domain, kinds: seq<Kind>, values: seq<Json>, digest: Digest)
    requires |kinds| == |values|
    ensures IdentityOf(domain, kinds, values, digest) != ""
       <==> forall i | 0 <= i < |kinds| :: Encoded(kinds[i], values[i], digest).Some?
  {
    EncodedAllSome(kinds, values, digest);
    NamedExactly(domain, kinds, values, EncodedAll(kinds, values, digest), digest);
  }

  // ---------------------------------------------------------------------
  // Parts

  predicate IsAscii(text: string) {
    forall i | 0 <= i < |text| :: text[i] as int < 0x80
  }

  /** ASCII texts take the same bytes in Latin-1 and in UTF-8. */
  lemma {:induction false} LatinIsUtf8(text: string)
    requires IsAscii(text)
    ensures IsLatin(text) && Latin(text) == Utf8(text)
    decreases |text|
  {
    if text != "" {
      LatinIsUtf8(text[1..]);
      assert Latin(text) == [text[0] as int as byte] + Latin(text[1..]);
    }
  }

  /** One hashed component: a fixed tag, a text, a number, a number that may be absent, a flag, or a text's own digest. */
  datatype Part =
    | Tag(text: string)
    | Words(text: string)
    | Count(n: nat)
    | CountOrNull(number: Option<nat>)
    | Flag(value: bool)
    | DigestOf(text: string)

  function PartKind(part: Part): Kind {
    match part
    case Tag(_) => TagKind
    case Words(_) => TextKind
    case Count(_) => NumberKind
    case CountOrNull(_) => OptionalKind
    case Flag(_) => FlagKind
    case DigestOf(_) => DigestKind
  }

  function PartValue(part: Part): Json {
    match part
    case Tag(text) => Text(text)
    case Words(text) => Text(text)
    case Count(n) => Integer(n)
    case CountOrNull(number) => (match number case None => Null case Some(n) => Integer(n))
    case Flag(value) => Boolean(value)
    case DigestOf(text) => Text(text)
  }

  /** Texts in UTF-8, numbers in eight bytes, an absent number as the largest one, a flag as one byte. */
  function PartBytes(part: Part, digest: Digest): Octets {
    match part
    case Tag(text) => Utf8(text)
    case Words(text) => Utf8(text)
    case Count(n) => UnsignedBigEndian(n)
    case CountOrNull(number) =>
      (match number case None => UnsignedBigEndian(0xFFFF_FFFF_FFFF_FFFF) case Some(n) => UnsignedBigEndian(n))
    case Flag(value) => if value then [1] else [0]
    case DigestOf(text) => digest(Utf8(text))
  }

  predicate Sound(part: Part) {
    match part
    case Tag(text) => IsAscii(text)
    case Count(n) => n <= 9007199254740991
    case CountOrNull(number) => number.Some? ==> number.value <= 9007199254740991
    case _ => true
  }

  lemma PartEncoded(part: Part, digest: Digest)
    requires Sound(part)
    ensures Encoded(PartKind(part), PartValue(part), digest) == Some(PartBytes(part, digest))
  {
    match part {
      case Tag(text) => LatinIsUtf8(text);
      case _ =>
    }
  }

  function Hashed(parts: seq<Part>, digest: Digest): (r: seq<Octets>)
    ensures |r| == |parts|
  {
    seq(|parts|, i requires 0 <= i < |parts| => PartBytes(parts[i], digest))
  }

  /** The identity over values that are the given parts. */
  lemma PartsIdentity(domain: Domain, kinds: seq<Kind>, values: seq<Json>, parts: seq<Part>, digest: Digest)
    requires |kinds| == |values| == |parts|
    requires forall i | 0 <= i < |parts| ::
               Sound(parts[i]) && kinds[i] == PartKind(parts[i]) && values[i] == PartValue(parts[i])
    ensures IdentityOf(domain, kinds, values, digest) == Identity(domain, Hashed(parts, digest), digest)
  {
    forall i | 0 <= i < |parts|
      ensures Encoded(kinds[i], values[i], digest) == Some(Hashed(parts, digest)[i])
    {
      PartEncoded(parts[i], digest);
    }
    EncodedAllIs(kinds, values, Hashed(parts, digest), digest);
  }

  // ---------------------------------------------------------------------
  // Durable mutation operations

  lemma OperationParts(session: string, kind: string, key: string, fingerprint: string, digest: Digest)
    ensures IdentityOf(Mutation, OPERATION_KINDS, OperationValues(session, kind, key, fingerprint), digest)
         == Identity(Mutation, Hashed([Words(session), Words(kind), Words(key), Words(fingerprint)], digest), digest)
  {
    PartsIdentity(Mutation, OPERATION_KINDS, OperationValues(session, kind, key, fingerprint),
                  [Words(session), Words(kind), Words(key), Words(fingerprint)], digest);
  }

  lemma MutationLayout(session: string, kind: string, key: string, fingerprint: string, digest: Digest)
    requires DurableMutationOperationIdentity(session, kind, key, fingerprint, digest) != ""
    ensures DurableMutationOperationIdentity(session, kind, key, fingerprint, digest)
         == Identity(Mutation, Hashed([Words(session), Words(kind), Words(key), Words(fingerprint)], digest), digest)
  {
    OperationParts(session, kind, key, fingerprint, digest);
  }

  lemma MutationExists(session: string, kind: string, key: string, fingerprint: string, digest: Digest)
    ensures DurableMutationOperationIdentity(session, kind, key, fingerprint, digest) != ""
       <==> && IsBoundedIdentity(Text(session)) && kind == "turn-start"
            && IsBoundedIdentity(Text(key)) && IsLowerHexSha256(fingerprint)
  {
    IdentityExists(Mutation, OPERATION_KINDS, OperationValues(session, kind, key, fingerprint), digest);
  }

  // ---------------------------------------------------------------------
  // Previews, limits, cursors, bindings and pages

  predicate Holds(members: Fields, key: string, part: Part) {
    Sound(part) && Value(members, key) == PartValue(part)
  }

  lemma PreviewLayout(
      preview: Fields, reference: string, sha256: string, mediaType: string, contentBytes: nat, previewBytes: nat,
      truncated: bool, lineCount: Option<nat>, width: Option<nat>, height: Option<nat>, digest: Digest)
    requires Holds(preview, "reference", Words(reference)) && Holds(preview, "sha256", Words(sha256))
    requires Holds(preview, "media_type", Words(mediaType))
    requires Holds(preview, "content_bytes", Count(contentBytes)) && Holds(preview, "preview_bytes", Count(previewBytes))
    requires Holds(preview, "truncated", Flag(truncated)) && Holds(preview, "line_count", CountOrNull(lineCount))
    requires Holds(preview, "width", CountOrNull(width)) && Holds(preview, "height", CountOrNull(height))
    ensures ContentPreviewIdentity(preview, digest)
         == Identity(Preview, Hashed(
              [Words(reference), Words(sha256), Words(mediaType), Count(contentBytes), Count(previewBytes),
               Flag(truncated), CountOrNull(lineCount), CountOrNull(width), CountOrNull(height)], digest), digest)
  {
    PartsIdentity(Preview, PREVIEW_KINDS, PreviewValues(preview),
                  [Words(reference), Words(sha256), Words(mediaType), Count(contentBytes), Count(previewBytes),
                   Flag(truncated), CountOrNull(lineCount), CountOrNull(width), CountOrNull(height)], digest);
  }

  lemma LimitsTag(tag: Part)
    requires tag == Tag("content-inline-limits/0.1")
    ensures Sound(tag) && PartValue(tag) == Text("content-inline-limits/0.1")
  {
  }

  lemma LimitsLayout(limits: Fields, item: nat, total: nat, digest: Digest)
    requires Holds(limits, "max_item_bytes", Count(item)) && Holds(limits, "max_total_bytes", Count(total))
    ensures ContentInlineLimitsIdentity(limits, digest)
         == Identity(Limits, Hashed([Tag("content-inline-limits/0.1"), Count(item), Count(total)], digest), digest)
  {
    LimitsTag(Tag("content-inline-limits/0.1"));
    PartsIdentity(Limits, LIMITS_KINDS, LimitsValues(limits),
                  [Tag("content-inline-limits/0.1"), Count(item), Count(total)], digest);
  }

  /** The binding of a cursor or page is hashed only when it is there. */
  function BindingParts(binding: Option<string>): seq<Part> {
    match binding case None => [] case Some(text) => [Words(text)]
  }

  predicate HoldsBinding(holder: Fields, binding: Option<string>) {
    match binding
    case None => "binding_identity" !in holder
    case Some(text) => "binding_identity" in holder && holder["binding_identity"] == Text(text)
  }

  lemma CursorLayout(
      cursor: Fields, reference: string, sha256: string, bytes: nat, mediaType: string, offset: nat, pageSize: nat,
      limits: string, binding: Option<string>, digest: Digest)
    requires Holds(cursor, "reference", Words(reference)) && Holds(cursor, "sha256", Words(sha256))
    requires Holds(cursor, "bytes", Count(bytes)) && Holds(cursor, "media_type", Words(mediaType))
    requires Holds(cursor, "offset", Count(offset)) && Holds(cursor, "page_size", Count(pageSize))
    requires Holds(ToFields(Value(cursor, "limits")), "identity", Words(limits)) && HoldsBinding(cursor, binding)
    ensures ContentReferenceCursorIdentity(cursor, digest)
         == Identity(Cursor, Hashed(
              [Words(reference), Words(sha256), Count(bytes), Words(mediaType), Count(offset), Count(pageSize),
               Words(limits)] + BindingParts(binding), digest), digest)
  {
    PartsIdentity(Cursor, CursorKinds(HasBinding(cursor)), CursorValues(cursor),
                  [Words(reference), Words(sha256), Count(bytes), Words(mediaType), Count(offset), Count(pageSize),
                   Words(limits)] + BindingParts(binding), digest);
  }

  /** The parts of a page binding in their order: what the output belongs to, what it is, and how much there is of it. */
  predicate AreBindingParts(p: seq<Part>, result: Fields, content: Fields) {
    |p| == 14 && AreBindingNames(p[..6], result, content) && AreBindingNumbers(p[6..], result)
  }

  predicate AreBindingNames(p: seq<Part>, result: Fields, content: Fields) {
    && |p| == 6
    && p[0] == Tag("command-output-artifact-page-binding/0.1")
    && p[1].Words? && Holds(result, "session_id", p[1])
    && p[2].Words? && Holds(content, "reference", p[2])
    && p[3].Words? && Holds(content, "sha256", p[3])
    && p[4].Words? && Holds(content, "media_type", p[4])
    && p[5].Words? && Holds(result, "item_id", p[5])
  }

  predicate AreBindingNumbers(p: seq<Part>, result: Fields) {
    && |p| == 8
    && p[0].Count? && Holds(result, "created_at_ms", p[0])
    && p[1].Count? && Holds(result, "source_bytes", p[1])
    && p[2].Count? && Holds(result, "redacted_count", p[2])
    && p[3].Flag? && Holds(result, "redacted", p[3])
    && p[4].Count? && Holds(result, "total_bytes", p[4])
    && p[5].Count? && Holds(result, "retained_bytes", p[5])
    && p[6].Count? && Holds(result, "omitted_bytes", p[6])
    && p[7].Flag? && Holds(result, "truncated", p[7])
  }

  lemma BindingTexts(p: seq<Part>, result: Fields, content: Fields)
    requires AreBindingNames(p, result, content) && ToFields(Value(result, "content_reference")) == content
    ensures forall i | 1 <= i < 6 ::
              Sound(p[i]) && BINDING_KINDS[i] == PartKind(p[i]) && BindingValues(result)[i] == PartValue(p[i])
  {
  }

  lemma BindingTag(part: Part, result: Fields)
    requires part == Tag("command-output-artifact-page-binding/0.1")
    ensures Sound(part) && BINDING_KINDS[0] == PartKind(part) && BindingValues(result)[0] == PartValue(part)
  {
  }

  lemma BindingNumbers(p: seq<Part>, result: Fields)
    requires AreBindingNumbers(p, result)
    ensures forall i | 0 <= i < 8 ::
              Sound(p[i]) && BINDING_KINDS[i + 6] == PartKind(p[i]) && BindingValues(result)[i + 6] == PartValue(p[i])
  {
  }

  lemma BindingLayout(p: seq<Part>, result: Fields, content: Fields, digest: Digest)
    requires AreBindingParts(p, result, content) && ToFields(Value(result, "content_reference")) == content
    ensures CommandArtifactPageBindingIdentity(result, digest) == Identity(Binding, Hashed(p, digest), digest)
  {
    var names, numbers := p[..6], p[6..];
    BindingTag(names[0], result);
    BindingTexts(names, result, content);
    BindingNumbers(numbers, result);
    var kinds, values := BINDING_KINDS, BindingValues(result);
    forall i | 0 <= i < 14
      ensures Sound(p[i]) && kinds[i] == PartKind(p[i]) && values[i] == PartValue(p[i])
    {
      assert p[i] == if i < 6 then names[i] else numbers[i - 6];
      assert i >= 6 ==> kinds[i - 6 + 6] == PartKind(numbers[i - 6]);
    }
    PartsIdentity(Binding, kinds, values, p, digest);
  }

  lemma PageLayout(
      page: Fields, reference: string, sha256: string, bytes: nat, mediaType: string, offset: nat, pageSize: nat,
      pageBytes: nat, text: string, truncated: bool, limits: string, binding: Option<string>, next: string, digest: Digest)
    requires Holds(page, "reference", Words(reference)) && Holds(page, "sha256", Words(sha256))
    requires Holds(page, "bytes", Count(bytes)) && Holds(page, "media_type", Words(mediaType))
    requires Holds(page, "offset", Count(offset)) && Holds(page, "page_size", Count(pageSize))
    requires Holds(page, "page_bytes", Count(pageBytes)) && Holds(page, "inline", Words(text))
    requires Holds(page, "inline_truncated", Flag(truncated))
    requires Holds(ToFields(Value(page, "limits")), "identity", Words(limits)) && HoldsBinding(page, binding)
    requires if Value(page, "next_cursor").Object? then Value(Value(page, "next_cursor").fields, "identity") == Text(next)
             else Value(page, "next_cursor") == Null && next == "none"
    ensures ContentReferencePageIdentity(page, digest)
         == Identity(Page, Hashed(
              [Words(reference), Words(sha256), Count(bytes), Words(mediaType), Count(offset), Count(pageSize),
               Count(pageBytes), DigestOf(text), Flag(truncated), Words(limits)] + BindingParts(binding) + [Words(next)],
              digest), digest)
  {
    PartsIdentity(Page, PageKinds(HasBinding(page)), PageValues(page),
                  [Words(reference), Words(sha256), Count(bytes), Words(mediaType), Count(offset), Count(pageSize),
                   Count(pageBytes), DigestOf(text), Flag(truncated), Words(limits)] + BindingParts(binding) + [Words(next)],
                  digest);
  }
}
