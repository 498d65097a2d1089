// The identities of command-output pages, previews, limits, cursors and durable
// mutation operations (src/agent_runtime_client.cpp, contentPreviewIdentity and its neighbours).

module ContentIdentities {
  import opened Options
  import opened Bytes
  import opened Json
  import opened Identities

  // ---------------------------------------------------------------------
  // durableMutationOperationIdentity

  predicate IsFingerprint(value: Json) {
    value.Text? && IsLowerHexSha256(value.text)
  }

  predicate IsOperationSource(session: string, kind: string, key: string, fingerprint: string) {
    && IsBoundedIdentity(Text(session)) && kind == "turn-start"
    && IsBoundedIdentity(Text(key)) && IsFingerprint(Text(fingerprint))
  }

  const OPERATION_KINDS := [TextKind, TextKind, TextKind, TextKind]

  function OperationValues(session: string, kind: string, key: string, fingerprint: string): (r: seq<Json>)
    ensures |r| == |OPERATION_KINDS|
  {
    [Text(session), Text(kind), Text(key), Text(fingerprint)]
  }

  function DurableMutationOperationIdentity(
      session: string, kind: string, key: string, fingerprint: string, digest: Digest): string
  {
    if !IsOperationSource(session, kind, key, fingerprint) then ""
    else IdentityOf(Mutation, OPERATION_KINDS, OperationValues(session, kind, key, fingerprint), digest)
  }

  lemma OperationSized(session: string, kind: string, key: string, fingerprint: string, digest: Digest)
    requires IsOperationSource(session, kind, key, fingerprint)
    ensures SizedValues(OPERATION_KINDS, OperationValues(session, kind, key, fingerprint), digest)
  {
  }

  /** An operation's identity determines its session, kind, idempotency key and request fingerprint. */
  lemma MutationIdentityBinds(
      s1: string, k1: string, i1: string, f1: string, s2: string, k2: string, i2: string, f2: string, digest: Digest)
    requires Injective(digest)
    requires DurableMutationOperationIdentity(s1, k1, i1, f1, digest) != ""
    requires DurableMutationOperationIdentity(s1, k1, i1, f1, digest)
             == DurableMutationOperationIdentity(s2, k2, i2, f2, digest)
    ensures s1 == s2 && k1 == k2 && i1 == i2 && f1 == f2
  {
    var v, w := OperationValues(s1, k1, i1, f1), OperationValues(s2, k2, i2, f2);
    OperationSized(s1, k1, i1, f1, digest);
    OperationSized(s2, k2, i2, f2, digest);
    IdentityOfInjective(Mutation, OPERATION_KINDS, v, w, digest);
    assert v[0] == w[0] && v[1] == w[1] && v[2] == w[2] && v[3] == w[3];
  }

  // ---------------------------------------------------------------------
  // contentPreviewIdentity

  const PREVIEW_KINDS :=
    [TextKind, TextKind, TextKind, NumberKind, NumberKind, FlagKind, OptionalKind, OptionalKind, OptionalKind]

  function PreviewValues(preview: Fields): (r: seq<Json>)
    ensures |r| == |PREVIEW_KINDS|
  {
    [Value(preview, "reference"),
     Value(preview, "sha256"),
     Value(preview, "media_type"),
     Value(preview, "content_bytes"),
     Value(preview, "preview_bytes"),
     Value(preview, "truncated"),
     Value(preview, "line_count"),
     Value(preview, "width"),
     Value(preview, "height")]
  }

  function ContentPreviewIdentity(preview: Fields, digest: Digest): string {
    IdentityOf(Preview, PREVIEW_KINDS, PreviewValues(preview), digest)
  }

  /** A preview's identity determines its nine bound members, absent numbers included. */
  lemma PreviewIdentityBinds(a: Fields, b: Fields, digest: Digest)
    requires Injective(digest) && SizedValues(PREVIEW_KINDS, PreviewValues(a), digest)
    requires SizedValues(PREVIEW_KINDS, PreviewValues(b), digest)
    requires ContentPreviewIdentity(a, digest) != ""
    requires ContentPreviewIdentity(a, digest) == ContentPreviewIdentity(b, digest)
    ensures && Value(a, "reference") == Value(b, "reference")
            && Value(a, "sha256") == Value(b, "sha256")
            && Value(a, "media_type") == Value(b, "media_type")
            && Value(a, "content_bytes") == Value(b, "content_bytes")
            && Value(a, "preview_bytes") == Value(b, "preview_bytes")
            && Value(a, "truncated") == Value(b, "truncated")
            && Value(a, "line_count") == Value(b, "line_count")
            && Value(a, "width") == Value(b, "width")
            && Value(a, "height") == Value(b, "height")
  {
    var v, w := PreviewValues(a), PreviewValues(b);
    IdentityOfInjective(Preview, PREVIEW_KINDS, v, w, digest);
    assert v[0] == w[0] && v[1] == w[1] && v[2] == w[2] && v[3] == w[3] && v[4] == w[4];
    assert v[5] == w[5] && v[6] == w[6] && v[7] == w[7] && v[8] == w[8];
  }

  // ---------------------------------------------------------------------
  // contentInlineLimitsIdentity

  const LIMITS_KINDS := [TagKind, NumberKind, NumberKind]

  function LimitsValues(limits: Fields): (r: seq<Json>)
    ensures |r| == |LIMITS_KINDS|
  {
    [Text("content-inline-limits/0.1"), Value(limits, "max_item_bytes"), Value(limits, "max_total_bytes")]
  }

  function ContentInlineLimitsIdentity(limits: Fields, digest: Digest): string {
    IdentityOf(Limits, LIMITS_KINDS, LimitsValues(limits), digest)
  }

  lemma LimitsSized(limits: Fields, digest: Digest)
    requires ContentInlineLimitsIdentity(limits, digest) != ""
    ensures SizedValues(LIMITS_KINDS, LimitsValues(limits), digest)
  {
    LimitsAreNumbers(limits, digest);
    NumbersSized(Text("content-inline-limits/0.1"), Value(limits, "max_item_bytes"), Value(limits, "max_total_bytes"), digest);
  }

  lemma NumbersSized(tag: Json, a: Json, b: Json, digest: Digest)
    requires SizedText(tag) && a.Integer? && b.Integer?
    ensures SizedValues(LIMITS_KINDS, [tag, a, b], digest)
  {
    assert forall value | value in [tag, a, b] :: value == tag || value == a || value == b;
    assert forall kind | kind in LIMITS_KINDS :: kind == TagKind || kind == NumberKind;
  }

  lemma LimitsAreNumbers(limits: Fields, digest: Digest)
    requires ContentInlineLimitsIdentity(limits, digest) != ""
    ensures Value(limits, "max_item_bytes").Integer? && Value(limits, "max_total_bytes").Integer?
  {
    EncodedAt(Limits, LIMITS_KINDS, LimitsValues(limits), digest, 1);
    EncodedAt(Limits, LIMITS_KINDS, LimitsValues(limits), digest, 2);
  }

  lemma LimitsIdentityBinds(a: Fields, b: Fields, digest: Digest)
    requires Injective(digest)
    requires ContentInlineLimitsIdentity(a, digest) != ""
    requires ContentInlineLimitsIdentity(a, digest) == ContentInlineLimitsIdentity(b, digest)
    ensures Value(a, "max_item_bytes") == Value(b, "max_item_bytes")
    ensures Value(a, "max_total_bytes") == Value(b, "max_total_bytes")
  {
    var v, w := LimitsValues(a), LimitsValues(b);
    LimitsSized(a, digest);
    LimitsSized(b, digest);
    IdentityOfInjective(Limits, LIMITS_KINDS, v, w, digest);
    assert v[1] == w[1] && v[2] == w[2];
  }

  // ---------------------------------------------------------------------
  // contentReferenceCursorIdentity

  const CURSOR_KINDS := [TextKind, TextKind, NumberKind, TextKind, NumberKind, NumberKind, TextKind]

  predicate HasBinding(holder: Fields) {
    "binding_identity" in holder
  }

  function CursorKinds(bound: bool): seq<Kind> {
    if bound then CURSOR_KINDS + [TextKind] else CURSOR_KINDS
  }

  function CursorValues(cursor: Fields): (r: seq<Json>)
    ensures |r| == |CursorKinds(HasBinding(cursor))|
  {
    var fixed :=
      [Value(cursor, "reference"),
       Value(cursor, "sha256"),
       Value(cursor, "bytes"),
       Value(cursor, "media_type"),
       Value(cursor, "offset"),
       Value(cursor, "page_size"),
       Value(ToFields(Value(cursor, "limits")), "identity")];
    if HasBinding(cursor) then fixed + [Value(cursor, "binding_identity")] else fixed
  }

  function ContentReferenceCursorIdentity(cursor: Fields, digest: Digest): string {
    IdentityOf(Cursor, CursorKinds(HasBinding(cursor)), CursorValues(cursor), digest)
  }

  /** A cursor's identity determines its bound members, and whether it is bound to a page chain at all. */
  lemma CursorIdentityBinds(a: Fields, b: Fields, digest: Digest)
    requires Injective(digest) && SizedValues(CursorKinds(HasBinding(a)), CursorValues(a), digest)
    requires SizedValues(CursorKinds(HasBinding(b)), CursorValues(b), digest)
    requires ContentReferenceCursorIdentity(a, digest) != ""
    requires ContentReferenceCursorIdentity(a, digest) == ContentReferenceCursorIdentity(b, digest)
    ensures && Value(a, "reference") == Value(b, "reference")
            && Value(a, "sha256") == Value(b, "sha256")
            && Value(a, "bytes") == Value(b, "bytes")
            && Value(a, "media_type") == Value(b, "media_type")
            && Value(a, "offset") == Value(b, "offset")
            && Value(a, "page_size") == Value(b, "page_size")
            && Value(ToFields(Value(a, "limits")), "identity") == Value(ToFields(Value(b, "limits")), "identity")
    ensures HasBinding(a) == HasBinding(b)
    ensures Value(a, "binding_identity") == Value(b, "binding_identity")
  {
    var v, w := CursorValues(a), CursorValues(b);
    SameComponents(Cursor, CursorKinds(HasBinding(a)), v, CursorKinds(HasBinding(b)), w, digest);
    assert HasBinding(a) == HasBinding(b);
    IdentityOfInjective(Cursor, CursorKinds(HasBinding(a)), v, w, digest);
    assert v[0] == w[0] && v[1] == w[1] && v[2] == w[2] && v[3] == w[3] && v[4] == w[4];
    assert v[5] == w[5] && v[6] == w[6];
    if HasBinding(a) {
      assert v[7] == w[7];
    }
  }

  // ---------------------------------------------------------------------
  // commandArtifactPageBindingIdentity

  const BINDING_KINDS :=
    [TagKind, TextKind, TextKind, TextKind, TextKind, TextKind, NumberKind, NumberKind, NumberKind,
     FlagKind, NumberKind, NumberKind, NumberKind, FlagKind]

  function BindingValues(result: Fields): (r: seq<Json>)
    ensures |r| == |BINDING_KINDS|
  {
    var content := ToFields(Value(result, "content_reference"));
    [Text("command-output-artifact-page-binding/0.1"),
     Value(result, "session_id"),
     Value(content, "reference"),
     Value(content, "sha256"),
     Value(content, "media_type"),
     Value(result, "item_id"),
     Value(result, "created_at_ms"),
     Value(result, "source_bytes"),
     Value(result, "redacted_count"),
     Value(result, "redacted"),
     Value(result, "total_bytes"),
     Value(result, "retained_bytes"),
     Value(result, "omitted_bytes"),
     Value(result, "truncated")]
  }

  function CommandArtifactPageBindingIdentity(result: Fields, digest: Digest): string {
    IdentityOf(Binding, BINDING_KINDS, BindingValues(result), digest)
  }

  /** The thirteen members of a command-output page that its binding identity covers. */
  predicate SameBinding(a: Fields, b: Fields) {
    var x, y := ToFields(Value(a, "content_reference")), ToFields(Value(b, "content_reference"));
    && Value(a, "session_id") == Value(b, "session_id")
    && Value(x, "reference") == Value(y, "reference")
    && Value(x, "sha256") == Value(y, "sha256")
    && Value(x, "media_type") == Value(y, "media_type")
    && Value(a, "item_id") == Value(b, "item_id")
    && Value(a, "created_at_ms") == Value(b, "created_at_ms")
    && Value(a, "source_bytes") == Value(b, "source_bytes")
    && Value(a, "redacted_count") == Value(b, "redacted_count")
    && Value(a, "redacted") == Value(b, "redacted")
    && Value(a, "total_bytes") == Value(b, "total_bytes")
    && Value(a, "retained_bytes") == Value(b, "retained_bytes")
    && Value(a, "omitted_bytes") == Value(b, "omitted_bytes")
    && Value(a, "truncated") == Value(b, "truncated")
  }

  lemma BindingIdentityBinds(a: Fields, b: Fields, digest: Digest)
    requires Injective(digest) && SizedValues(BINDING_KINDS, BindingValues(a), digest)
    requires SizedValues(BINDING_KINDS, BindingValues(b), digest)
    requires CommandArtifactPageBindingIdentity(a, digest) != ""
    requires CommandArtifactPageBindingIdentity(a, digest) == CommandArtifactPageBindingIdentity(b, digest)
    ensures SameBinding(a, b)
  {
    IdentityOfInjective(Binding, BINDING_KINDS, BindingValues(a), BindingValues(b), digest);
    SameBindingValues(a, b);
  }

  lemma SameBindingValues(a: Fields, b: Fields)
    requires BindingValues(a) == BindingValues(b)
    ensures SameBinding(a, b)
  {
    var v, w := BindingValues(a), BindingValues(b);
    assert v[1] == w[1] && v[2] == w[2] && v[3] == w[3] && v[4] == w[4] && v[5] == w[5];
    assert v[6] == w[6] && v[7] == w[7] && v[8] == w[8] && v[9] == w[9];
    assert v[10] == w[10] && v[11] == w[11] && v[12] == w[12] && v[13] == w[13];
  }

  // ---------------------------------------------------------------------
  // contentReferencePageIdentity

  function NextIdentity(page: Fields): Json {
    var next := Value(page, "next_cursor");
    if next.Object? then Text(ToText(Value(next.fields, "identity"))) else Text("none")
  }

  /** The text that is hashed for the inline member; null counts as the empty text. */
  function InlineText(page: Fields): Json {
    Text(ToText(Value(page, "inline")))
  }

  const PAGE_KINDS :=
    [TextKind, TextKind, NumberKind, TextKind, NumberKind, NumberKind, NumberKind, DigestKind, FlagKind, TextKind]

  function PageKinds(bound: bool): seq<Kind> {
    if bound then PAGE_KINDS + [TextKind, TextKind] else PAGE_KINDS + [TextKind]
  }

  function PageValues(page: Fields): (r: seq<Json>)
    ensures |r| == |PageKinds(HasBinding(page))|
  {
    var fixed :=
      [Value(page, "reference"),
       Value(page, "sha256"),
       Value(page, "bytes"),
       Value(page, "media_type"),
       Value(page, "offset"),
       Value(page, "page_size"),
       Value(page, "page_bytes"),
       InlineText(page),
       Value(page, "inline_truncated"),
       Value(ToFields(Value(page, "limits")), "identity")];
    if HasBinding(page) then fixed + [Value(page, "binding_identity"), NextIdentity(page)]
    else fixed + [NextIdentity(page)]
  }

  function ContentReferencePageIdentity(page: Fields, digest: Digest): string {
    var inlineValue, next := Value(page, "inline"), Value(page, "next_cursor");
    if !(inlineValue.Null? || inlineValue.Text?) || !(next.Null? || next.Object?) then ""
    else IdentityOf(Page, PageKinds(HasBinding(page)), PageValues(page), digest)
  }

  /** The members of a page that its identity covers, as far as it covers them. */
  predicate SamePage(a: Fields, b: Fields) {
    && Value(a, "reference") == Value(b, "reference")
    && Value(a, "sha256") == Value(b, "sha256")
    && Value(a, "bytes") == Value(b, "bytes")
    && Value(a, "media_type") == Value(b, "media_type")
    && Value(a, "offset") == Value(b, "offset")
    && Value(a, "page_size") == Value(b, "page_size")
    && Value(a, "page_bytes") == Value(b, "page_bytes")
    && InlineText(a) == InlineText(b)
    && Value(a, "inline_truncated") == Value(b, "inline_truncated")
    && Value(ToFields(Value(a, "limits")), "identity") == Value(ToFields(Value(b, "limits")), "identity")
    && HasBinding(a) == HasBinding(b)
    && Value(a, "binding_identity") == Value(b, "binding_identity")
    && NextIdentity(a) == NextIdentity(b)
  }

  lemma SamePageValues(a: Fields, b: Fields)
    requires HasBinding(a) == HasBinding(b) && PageValues(a) == PageValues(b)
    ensures SamePage(a, b)
  {
    var v, w := PageValues(a), PageValues(b);
    assert v[0] == w[0] && v[1] == w[1] && v[2] == w[2] && v[3] == w[3] && v[4] == w[4];
    assert v[5] == w[5] && v[6] == w[6] && v[7] == w[7] && v[8] == w[8] && v[9] == w[9];
    assert v[10] == w[10];
    if HasBinding(a) {
      assert v[11] == w[11];
    }
  }

  /**
   * A page's identity determines its members, the inline text up to the difference between
   * null and the empty text, and the next cursor up to the text that names it.
   */
  lemma PageIdentityBinds(a: Fields, b: Fields, digest: Digest)
    requires Injective(digest) && SizedValues(PageKinds(HasBinding(a)), PageValues(a), digest)
    requires SizedValues(PageKinds(HasBinding(b)), PageValues(b), digest)
    requires ContentReferencePageIdentity(a, digest) != ""
    requires ContentReferencePageIdentity(a, digest) == ContentReferencePageIdentity(b, digest)
    ensures SamePage(a, b)
    ensures Value(a, "inline").Text? && Value(b, "inline").Text? ==> Value(a, "inline") == Value(b, "inline")
  {
    var v, w := PageValues(a), PageValues(b);
    SameComponents(Page, PageKinds(HasBinding(a)), v, PageKinds(HasBinding(b)), w, digest);
    assert HasBinding(a) == HasBinding(b);
    IdentityOfInjective(Page, PageKinds(HasBinding(a)), v, w, digest);
    SamePageValues(a, b);
  }

  /** The exception is real: a page with a null inline shares its identity with the empty-text one. */
  lemma NullInlineSharesIdentity(page: Fields, digest: Digest)
    requires Value(page, "inline") == Null
    ensures ContentReferencePageIdentity(page["inline" := Text("")], digest)
            == ContentReferencePageIdentity(page, digest)
  {
    var other := page["inline" := Text("")];
    assert forall key: string :: key != "inline" ==> Value(other, key) == Value(page, key) && (key in other <==> key in page);
    assert PageValues(other) == PageValues(page);
  }
}
