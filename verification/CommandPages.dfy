// isValidCommandArtifactPage (src/agent_runtime_client.cpp): one page of a command's
// output, and what a chain of accepted pages amounts to.

module CommandPages {
  import opened Options
  import opened Bytes
  import opened Json
  import opened Identities
  import opened ContentIdentities
  import opened Lines
  import Decimal

  const MAXIMUM_CONTENT_BYTES := 16 * 1024 * 1024
  const MAXIMUM_INLINE_ITEM_BYTES := 64 * 1024
  const MAXIMUM_INLINE_TOTAL_BYTES := 256 * 1024
  const MAXIMUM_PREVIEW_LINES := 1_000_000
  const MAXIMUM_RETAINED_COMMAND_BYTES := 2 * 1024 * 1024
  const MEDIA_TYPE := "text/plain; charset=utf-8"

  // ---------------------------------------------------------------------
  // quint64 arithmetic, with its wrap-around

  function Add64(a: nat, b: nat): nat {
    (a + b) % TWO_TO_THE_64
  }

  function Subtract64(a: nat, b: nat): nat {
    (a - b) % TWO_TO_THE_64
  }

  function Min(a: nat, b: nat): nat {
    if a < b then a else b
  }

  /** The number read into a quint64, which stays 0 when the read fails. */
  function Number(members: Fields, key: string): (n: nat)
    ensures n <= MAXIMUM_SAFE_INTEGER
  {
    match ReadUnsigned(Value(members, key)) case Some(n) => n case None => 0
  }

  predicate IsNumber(members: Fields, key: string) {
    ReadUnsigned(Value(members, key)).Some?
  }

  /** value.toDouble() == n, where a value that is no number reads as 0. */
  predicate ReadsAs(value: Json, n: nat) {
    match value
    case Integer(i) => i == n
    case Fraction(_) => false
    case _ => n == 0
  }

  // ---------------------------------------------------------------------
  // The parts of the check, in their order

  const FIRST_REQUEST_KEYS := {"session_id", "item_id", "reference", "limit", "max_total_inline_bytes"}
  const CONTINUATION_REQUEST_KEYS := {"session_id", "item_id", "reference", "cursor"}
  const RESULT_KEYS :=
    {"schema_version", "session_id", "item_id", "binding_identity", "created_at_ms", "content_reference", "page",
     "source_bytes", "redacted_count", "redacted", "total_bytes", "retained_bytes", "omitted_bytes", "truncated",
     "read_only"}
  const CONTENT_KEYS := {"schema_version", "reference", "sha256", "bytes", "media_type", "preview"}
  const PREVIEW_KEYS :=
    {"schema_version", "identity", "reference", "sha256", "media_type", "content_bytes", "preview_bytes",
     "truncated", "line_count", "width", "height"}
  const LIMITS_KEYS := {"schema_version", "max_item_bytes", "max_total_bytes", "identity"}
  const PAGE_KEYS :=
    {"schema_version", "reference", "sha256", "bytes", "media_type", "offset", "page_size", "page_bytes", "inline",
     "inline_truncated", "limits", "binding_identity", "next_cursor", "identity"}
  const CURSOR_KEYS :=
    {"schema_version", "reference", "sha256", "bytes", "media_type", "offset", "page_size", "limits",
     "binding_identity", "identity"}

  function ContentOf(result: Fields): Fields {
    ToFields(Value(result, "content_reference"))
  }

  function PageOf(result: Fields): Fields {
    ToFields(Value(result, "page"))
  }

  function LimitsOf(result: Fields): Fields {
    ToFields(Value(PageOf(result), "limits"))
  }

  predicate IsContinuation(request: Fields) {
    "cursor" in request
  }

  predicate RequestShape(request: Fields) {
    && HasExactKeys(request, if IsContinuation(request) then CONTINUATION_REQUEST_KEYS else FIRST_REQUEST_KEYS)
    && IsGraphicalId(Value(request, "session_id"), 128)
    && IsGraphicalId(Value(request, "item_id"), 128)
    && Value(request, "reference").Text?
  }

  predicate ResultShape(result: Fields, request: Fields) {
    && HasExactKeys(result, RESULT_KEYS)
    && ToText(Value(result, "schema_version")) == "command-output-artifact-page/0.1"
    && Value(result, "session_id") == Value(request, "session_id")
    && Value(result, "item_id") == Value(request, "item_id")
    && Value(result, "binding_identity").Text?
    && IsTrue(Value(result, "read_only"))
    && Value(result, "redacted").Boolean?
    && Value(result, "truncated").Boolean?
    && Value(result, "content_reference").Object?
    && Value(result, "page").Object?
  }

  predicate Totals(result: Fields) {
    && IsNumber(result, "created_at_ms") && IsNumber(result, "source_bytes")
    && IsNumber(result, "redacted_count") && IsNumber(result, "total_bytes")
    && IsNumber(result, "retained_bytes") && IsNumber(result, "omitted_bytes")
    && Number(result, "retained_bytes") <= MAXIMUM_RETAINED_COMMAND_BYTES
    && Number(result, "total_bytes") == Add64(Number(result, "retained_bytes"), Number(result, "omitted_bytes"))
    && IsTrue(Value(result, "redacted")) == (Number(result, "redacted_count") > 0)
    && IsTrue(Value(result, "truncated")) == (Number(result, "omitted_bytes") > 0)
  }

  predicate IsCommandOutputReference(reference: string, sha256: string) {
    IsLowerHexSha256(sha256) && reference == "command-output:sha256:" + sha256
  }

  /** The line that stands for the omitted bytes. */
  function Marker(omitted: nat): string {
    "\n[Aegisy omitted " + Decimal.OfNat(omitted) + " command output bytes]\n"
  }

  function MarkerBytes(omitted: nat): nat {
    if omitted > 0 then |Utf8(Marker(omitted))| else 0
  }

  predicate ContentShape(result: Fields, request: Fields) {
    var content := ContentOf(result);
    && HasExactKeys(content, CONTENT_KEYS)
    && ToText(Value(content, "schema_version")) == "content-reference/0.1"
    && Value(content, "reference").Text? && Value(content, "sha256").Text?
    && Value(content, "media_type").Text? && Value(content, "preview").Object?
    && IsNumber(content, "bytes")
    && Number(content, "bytes") <= MAXIMUM_CONTENT_BYTES
    && ToText(Value(content, "media_type")) == MEDIA_TYPE
    && ToText(Value(request, "reference")) == ToText(Value(content, "reference"))
    && IsCommandOutputReference(ToText(Value(content, "reference")), ToText(Value(content, "sha256")))
    && Number(content, "bytes")
       == Add64(Number(result, "retained_bytes"), MarkerBytes(Number(result, "omitted_bytes")))
  }

  /** The members that name the content are those of the content reference. */
  predicate NamesContent(holder: Fields, content: Fields) {
    && ToText(Value(holder, "reference")) == ToText(Value(content, "reference"))
    && ToText(Value(holder, "sha256")) == ToText(Value(content, "sha256"))
    && ToText(Value(holder, "media_type")) == MEDIA_TYPE
  }

  function PreviewOf(result: Fields): Fields {
    ToFields(Value(ContentOf(result), "preview"))
  }

  predicate PreviewForm(result: Fields) {
    var content, preview := ContentOf(result), PreviewOf(result);
    var contentBytes, previewBytes := Number(content, "bytes"), Number(preview, "preview_bytes");
    && HasExactKeys(preview, PREVIEW_KEYS)
    && ToText(Value(preview, "schema_version")) == "content-preview/0.1"
    && NamesContent(preview, content)
    && IsNumber(preview, "content_bytes") && IsNumber(preview, "preview_bytes") && IsNumber(preview, "line_count")
    && Value(preview, "truncated").Boolean?
    && Value(preview, "width").Null? && Value(preview, "height").Null?
    && Number(preview, "content_bytes") == contentBytes
    && previewBytes <= contentBytes && previewBytes <= MAXIMUM_INLINE_ITEM_BYTES
    && IsTrue(Value(preview, "truncated")) == (previewBytes < contentBytes)
    && Number(preview, "line_count") <= MAXIMUM_PREVIEW_LINES
    && Number(preview, "line_count") <= Add64(contentBytes, 1)
    && IsSha256Identity(ToText(Value(preview, "identity")), "content-preview:sha256:")
  }

  predicate PreviewShape(result: Fields, digest: Digest) {
    PreviewForm(result) && ToText(Value(PreviewOf(result), "identity")) == ContentPreviewIdentity(PreviewOf(result), digest)
  }

  predicate LimitsShape(limits: Fields, digest: Digest) {
    var item, total := Number(limits, "max_item_bytes"), Number(limits, "max_total_bytes");
    && HasExactKeys(limits, LIMITS_KEYS)
    && ToText(Value(limits, "schema_version")) == "content-inline-limits/0.1"
    && IsNumber(limits, "max_item_bytes") && IsNumber(limits, "max_total_bytes")
    && 0 < item <= MAXIMUM_INLINE_ITEM_BYTES
    && 0 < total <= MAXIMUM_INLINE_TOTAL_BYTES
    && item <= total
    && ToText(Value(limits, "identity")) == ContentInlineLimitsIdentity(limits, digest)
  }

  predicate PageShape(result: Fields) {
    var content, page := ContentOf(result), PageOf(result);
    && HasExactKeys(page, PAGE_KEYS)
    && ToText(Value(page, "schema_version")) == "content-reference-page/0.1"
    && NamesContent(page, content)
    && Value(page, "bytes") == Value(content, "bytes")
    && Value(page, "limits") == Object(LimitsOf(result))
    && Value(page, "inline").Text?
    && Value(page, "inline_truncated") == Boolean(false)
    && Value(page, "binding_identity").Text?
    && Value(page, "binding_identity") == Value(result, "binding_identity")
  }

  predicate PagePlace(result: Fields) {
    var page := PageOf(result);
    var contentBytes, offset := Number(ContentOf(result), "bytes"), Number(page, "offset");
    var pageSize, pageBytes := Number(page, "page_size"), Number(page, "page_bytes");
    && IsNumber(page, "bytes") && IsNumber(page, "offset")
    && IsNumber(page, "page_size") && IsNumber(page, "page_bytes")
    && Number(page, "bytes") == contentBytes
    && pageSize != 0
    && pageSize <= MAXIMUM_INLINE_ITEM_BYTES && pageSize <= Number(LimitsOf(result), "max_item_bytes")
    && pageBytes <= pageSize && pageBytes <= Subtract64(contentBytes, Min(offset, contentBytes))
    && offset <= contentBytes
    && !(contentBytes > 0 && pageBytes == 0)
    && |Utf8(ToText(Value(page, "inline")))| == pageBytes
  }

  predicate PageNumbers(result: Fields, digest: Digest) {
    PagePlace(result) && ToText(Value(PageOf(result), "identity")) == ContentReferencePageIdentity(PageOf(result), digest)
  }

  predicate BindingShape(result: Fields, digest: Digest) {
    var binding := CommandArtifactPageBindingIdentity(result, digest);
    binding != "" && ToText(Value(result, "binding_identity")) == binding
  }

  predicate CursorShape(cursor: Fields, content: Fields) {
    && HasExactKeys(cursor, CURSOR_KEYS)
    && ToText(Value(cursor, "schema_version")) == "content-reference-cursor/0.1"
    && NamesContent(cursor, content)
  }

  predicate NextCursorForm(result: Fields) {
    var content, page := ContentOf(result), PageOf(result);
    var next, end := Value(page, "next_cursor"), Add64(Number(page, "offset"), Number(page, "page_bytes"));
    if next.Object? then
      var cursor := next.fields;
      && CursorShape(cursor, content)
      && Value(cursor, "bytes") == Value(page, "bytes")
      && ReadsAs(Value(cursor, "offset"), end)
      && Value(cursor, "page_size") == Value(page, "page_size")
      && Value(cursor, "limits") == Value(page, "limits")
      && Value(cursor, "binding_identity") == Value(result, "binding_identity")
      && end < Number(content, "bytes")
    else
      next.Null? && end == Number(content, "bytes")
  }

  predicate CursorIsNamed(cursor: Fields, digest: Digest) {
    ToText(Value(cursor, "identity")) == ContentReferenceCursorIdentity(cursor, digest)
  }

  predicate NextCursorShape(result: Fields, digest: Digest) {
    var next := Value(PageOf(result), "next_cursor");
    NextCursorForm(result) && (next.Object? ==> CursorIsNamed(next.fields, digest))
  }

  predicate ContinuationForm(result: Fields, request: Fields) {
    var content, page := ContentOf(result), PageOf(result);
    var cursor := ToFields(Value(request, "cursor"));
    var limits := ToFields(Value(cursor, "limits"));
    && Value(request, "cursor").Object?
    && CursorShape(cursor, content)
    && HasExactKeys(limits, LIMITS_KEYS)
    && ToText(Value(limits, "schema_version")) == "content-inline-limits/0.1"
    && Value(cursor, "bytes") == Value(content, "bytes")
    && Value(cursor, "limits") == Value(page, "limits")
    && Value(cursor, "offset") == Value(page, "offset")
    && Value(cursor, "page_size") == Value(page, "page_size")
  }

  predicate ContinuationShape(result: Fields, request: Fields, digest: Digest) {
    var cursor := ToFields(Value(request, "cursor"));
    var limits := ToFields(Value(cursor, "limits"));
    && ContinuationForm(result, request)
    && ToText(Value(limits, "identity")) == ContentInlineLimitsIdentity(limits, digest)
    && CursorIsNamed(cursor, digest)
    && ToText(Value(cursor, "binding_identity")) == CommandArtifactPageBindingIdentity(result, digest)
  }

  predicate FirstPageShape(result: Fields, request: Fields) {
    var page, limits := PageOf(result), LimitsOf(result);
    var requestedItem, requestedTotal := Number(request, "limit"), Number(request, "max_total_inline_bytes");
    var expectedTotal := Min(requestedTotal, MAXIMUM_INLINE_TOTAL_BYTES);
    var expectedItem := Min(Min(requestedItem, MAXIMUM_INLINE_ITEM_BYTES), expectedTotal);
    && IsNumber(request, "limit") && IsNumber(request, "max_total_inline_bytes")
    && requestedItem != 0 && requestedTotal != 0
    && Number(page, "offset") == 0
    && Number(limits, "max_item_bytes") == expectedItem
    && Number(limits, "max_total_bytes") == expectedTotal
    && Number(page, "page_size") == expectedItem
  }

  predicate IsValidCommandArtifactPage(result: Fields, request: Fields, digest: Digest) {
    && RequestShape(request)
    && ResultShape(result, request)
    && Totals(result)
    && ContentShape(result, request)
    && PreviewShape(result, digest)
    && LimitsShape(LimitsOf(result), digest)
    && PageShape(result)
    && PageNumbers(result, digest)
    && BindingShape(result, digest)
    && NextCursorShape(result, digest)
    && if IsContinuation(request) then ContinuationShape(result, request, digest) else FirstPageShape(result, request)
  }

  // ---------------------------------------------------------------------
  // What acceptance says about one page

  /** The numbers of a page that paging is about. */
  datatype Extent = Extent(contentBytes: nat, offset: nat, pageBytes: nat, bytes: Octets, complete: bool)

  function ExtentOf(result: Fields): Extent {
    var page := PageOf(result);
    Extent(Number(ContentOf(result), "bytes"), Number(page, "offset"), Number(page, "page_bytes"),
           Utf8(ToText(Value(page, "inline"))), Value(page, "next_cursor").Null?)
  }

  predicate WellPlaced(e: Extent) {
    && e.offset + e.pageBytes <= e.contentBytes <= MAXIMUM_CONTENT_BYTES
    && (e.contentBytes > 0 ==> e.pageBytes > 0)
    && |e.bytes| == e.pageBytes
    && (e.complete <==> e.offset + e.pageBytes == e.contentBytes)
  }

  lemma PageLiesInside(result: Fields, request: Fields, digest: Digest)
    requires ContentShape(result, request) && PageNumbers(result, digest)
    ensures var e := ExtentOf(result);
            && e.offset + e.pageBytes <= e.contentBytes <= MAXIMUM_CONTENT_BYTES
            && (e.contentBytes > 0 ==> e.pageBytes > 0) && |e.bytes| == e.pageBytes
  {
  }

  lemma NextCursorPlaces(result: Fields, digest: Digest, end: nat)
    requires NextCursorShape(result, digest)
    requires end == Number(PageOf(result), "offset") + Number(PageOf(result), "page_bytes")
    ensures Value(PageOf(result), "next_cursor").Null? <==> end == Number(ContentOf(result), "bytes")
  {
    assert Add64(Number(PageOf(result), "offset"), Number(PageOf(result), "page_bytes")) == end;
  }

  lemma NumbersArePlaced(result: Fields, request: Fields, digest: Digest)
    requires ContentShape(result, request) && PageShape(result)
    requires PageNumbers(result, digest) && NextCursorShape(result, digest)
    ensures WellPlaced(ExtentOf(result))
  {
    PageLiesInside(result, request, digest);
    NextCursorPlaces(result, digest, Number(PageOf(result), "offset") + Number(PageOf(result), "page_bytes"));
  }

  /** Every accepted page lies inside its content, and says truthfully whether it is the last. */
  lemma AcceptedPageIsPlaced(result: Fields, request: Fields, digest: Digest)
    requires IsValidCommandArtifactPage(result, request, digest)
    ensures WellPlaced(ExtentOf(result))
  {
    NumbersArePlaced(result, request, digest);
  }

  /** Whatever the check is given, not one of its quint64 operations wraps around. */
  lemma NothingWraps(result: Fields)
    ensures TotalsDoNotWrap(result) && PageDoesNotWrap(result)
  {
    TotalsExact(result);
    var contentBytes, offset := Number(ContentOf(result), "bytes"), Number(PageOf(result), "offset");
    SmallNumbersExact(contentBytes, offset, Number(PageOf(result), "page_bytes"));
  }

  predicate TotalsDoNotWrap(result: Fields) {
    var retained, omitted := Number(result, "retained_bytes"), Number(result, "omitted_bytes");
    && Add64(retained, omitted) == retained + omitted
    && Add64(retained, MarkerBytes(omitted)) == retained + MarkerBytes(omitted)
  }

  predicate PageDoesNotWrap(result: Fields) {
    var contentBytes := Number(ContentOf(result), "bytes");
    var offset, pageBytes := Number(PageOf(result), "offset"), Number(PageOf(result), "page_bytes");
    && Add64(contentBytes, 1) == contentBytes + 1
    && Subtract64(contentBytes, Min(offset, contentBytes)) == contentBytes - Min(offset, contentBytes)
    && Add64(offset, pageBytes) == offset + pageBytes
  }

  lemma TotalsExact(result: Fields)
    ensures TotalsDoNotWrap(result)
  {
    AddExact(Number(result, "retained_bytes"), Number(result, "omitted_bytes"));
  }

  lemma AddExact(retained: nat, omitted: nat)
    requires retained <= MAXIMUM_SAFE_INTEGER && omitted <= MAXIMUM_SAFE_INTEGER
    ensures Add64(retained, omitted) == retained + omitted
    ensures Add64(retained, MarkerBytes(omitted)) == retained + MarkerBytes(omitted)
  {
    MarkerIsShort(omitted);
  }

  lemma SmallNumbersExact(contentBytes: nat, offset: nat, pageBytes: nat)
    requires contentBytes <= MAXIMUM_SAFE_INTEGER && offset <= MAXIMUM_SAFE_INTEGER && pageBytes <= MAXIMUM_SAFE_INTEGER
    ensures Add64(contentBytes, 1) == contentBytes + 1
    ensures Subtract64(contentBytes, Min(offset, contentBytes)) == contentBytes - Min(offset, contentBytes)
    ensures Add64(offset, pageBytes) == offset + pageBytes
  {
  }

  lemma {:induction false} DecimalIsShort(n: nat, bound: nat, digits: nat)
    requires digits > 0 && n < bound && bound == Power10(digits)
    ensures |Decimal.OfNat(n)| <= digits
    decreases digits
  {
    if n >= 10 {
      assert digits > 1;
      DecimalIsShort(n / 10, Power10(digits - 1), digits - 1);
    }
  }

  function Power10(k: nat): nat {
    if k == 0 then 1 else 10 * Power10(k - 1)
  }

  lemma MarkerIsShort(omitted: nat)
    requires omitted <= MAXIMUM_SAFE_INTEGER
    ensures |Marker(omitted)| <= 60 && MarkerBytes(omitted) <= 240
  {
    assert Power10(4) == 10_000 && Power10(8) == 100_000_000 && Power10(12) == 1_000_000_000_000;
    assert Power10(16) == 10_000_000_000_000_000;
    DecimalIsShort(omitted, Power10(16), 16);
  }

  // ---------------------------------------------------------------------
  // What acceptance says about two pages in a row

  /** The client asks for the next page with the cursor the last page carries. */
  predicate Follows(previous: Exchange, next: Exchange) {
    IsContinuation(next.request) && Value(next.request, "cursor") == Value(PageOf(previous.result), "next_cursor")
  }

  lemma BindingSized(result: Fields, request: Fields, digest: Digest)
    requires RequestShape(request) && ResultShape(result, request) && ContentShape(result, request) && Totals(result)
    ensures SizedValues(BINDING_KINDS, BindingValues(result), digest)
  {
    ShortTexts(result, request);
    assert DigestKind !in BINDING_KINDS;
  }

  lemma ShortTexts(result: Fields, request: Fields)
    requires RequestShape(request) && ResultShape(result, request) && ContentShape(result, request) && Totals(result)
    ensures forall value | value in BindingValues(result) :: SizedText(value)
  {
    var content := ContentOf(result);
    assert |ToText(Value(content, "sha256"))| == 64;
    assert |ToText(Value(content, "reference"))| == |"command-output:sha256:"| + 64;
  }

  /** Both pages' identities name the same binding. */
  lemma SameBindingIdentity(previous: Fields, result: Fields, request: Fields, digest: Digest)
    requires BindingShape(previous, digest) && NextCursorShape(previous, digest)
    requires Value(request, "cursor") == Value(PageOf(previous), "next_cursor")
    requires ContinuationShape(result, request, digest)
    ensures CommandArtifactPageBindingIdentity(previous, digest) == CommandArtifactPageBindingIdentity(result, digest)
    ensures CommandArtifactPageBindingIdentity(previous, digest) != ""
  {
  }

  /** The cursor a page carries points at its end. */
  lemma CursorPointsAtEnd(result: Fields, digest: Digest)
    requires PageNumbers(result, digest) && NextCursorShape(result, digest) && PageShape(result)
    requires Number(ContentOf(result), "bytes") <= MAXIMUM_CONTENT_BYTES
    requires Value(PageOf(result), "next_cursor").Object?
    ensures var e, cursor := ExtentOf(result), Value(PageOf(result), "next_cursor").fields;
            && ReadsAs(Value(cursor, "offset"), e.offset + e.pageBytes)
            && Value(cursor, "bytes") == Value(ContentOf(result), "bytes")
            && Value(cursor, "limits") == Value(PageOf(result), "limits")
            && Value(cursor, "page_size") == Value(PageOf(result), "page_size")
            && !e.complete
  {
  }

  /** The next page starts where the previous one ended, in the same content and with the same limits. */
  lemma ContinuationStartsAtEnd(previous: Fields, result: Fields, request: Fields, digest: Digest)
    requires PageShape(previous) && PageNumbers(previous, digest) && NextCursorShape(previous, digest)
    requires Value(request, "cursor") == Value(PageOf(previous), "next_cursor")
    requires ContinuationShape(result, request, digest)
    requires IsNumber(PageOf(result), "offset")
    requires Number(ContentOf(previous), "bytes") <= MAXIMUM_CONTENT_BYTES
    ensures var e, f := ExtentOf(previous), ExtentOf(result);
            f.offset == e.offset + e.pageBytes && f.contentBytes == e.contentBytes && !e.complete
    ensures Value(PageOf(result), "limits") == Value(PageOf(previous), "limits")
    ensures Value(PageOf(result), "page_size") == Value(PageOf(previous), "page_size")
  {
    CursorPointsAtEnd(previous, digest);
    CursorIsHonoured(result, request, digest);
  }

  /** An accepted continuation lies where the requested cursor points. */
  lemma CursorIsHonoured(result: Fields, request: Fields, digest: Digest)
    requires ContinuationShape(result, request, digest)
    ensures Value(request, "cursor").Object?
    ensures var cursor := Value(request, "cursor").fields;
            && Value(cursor, "offset") == Value(PageOf(result), "offset")
            && Value(cursor, "bytes") == Value(ContentOf(result), "bytes")
            && Value(cursor, "limits") == Value(PageOf(result), "limits")
            && Value(cursor, "page_size") == Value(PageOf(result), "page_size")
  {
  }

  /** What one continuation step keeps: position, content, limits and every bound member. */
  predicate Continues(previous: Fields, result: Fields) {
    var e, f := ExtentOf(previous), ExtentOf(result);
    && f.offset == e.offset + e.pageBytes && f.contentBytes == e.contentBytes && !e.complete
    && Value(PageOf(result), "limits") == Value(PageOf(previous), "limits")
    && Value(PageOf(result), "page_size") == Value(PageOf(previous), "page_size")
    && SameBinding(previous, result)
  }

  lemma AcceptedContinuation(previous: Exchange, next: Exchange, digest: Digest)
    requires Injective(digest)
    requires IsValidCommandArtifactPage(previous.result, previous.request, digest)
    requires IsValidCommandArtifactPage(next.result, next.request, digest)
    requires Follows(previous, next)
    ensures Continues(previous.result, next.result)
  {
    SameBindingIdentity(previous.result, next.result, next.request, digest);
    BindingSized(previous.result, previous.request, digest);
    BindingSized(next.result, next.request, digest);
    BindingIdentityBinds(previous.result, next.result, digest);
    ContinuationStartsAtEnd(previous.result, next.result, next.request, digest);
  }

  // ---------------------------------------------------------------------
  // Chains of accepted pages

  ghost predicate AcceptedChain(chain: seq<Exchange>, digest: Digest) {
    && chain != []
    && !IsContinuation(chain[0].request)
    && (forall e | e in chain :: IsValidCommandArtifactPage(e.result, e.request, digest))
    && (forall i | 0 < i < |chain| :: FollowsAt(chain, i))
  }

  predicate FollowsAt(chain: seq<Exchange>, i: nat)
    requires 0 < i < |chain|
  {
    Follows(chain[i - 1], chain[i])
  }

  function Extents(chain: seq<Exchange>): (r: seq<Extent>)
    ensures |r| == |chain|
  {
    seq(|chain|, i requires 0 <= i < |chain| => ExtentOf(chain[i].result))
  }

  /** The bytes of the pages, put together. */
  function Assembled(extents: seq<Extent>): Octets {
    if extents == [] then [] else Assembled(extents[..|extents| - 1]) + extents[|extents| - 1].bytes
  }

  /** A run of extents that starts at 0 and leaves no gap. */
  ghost predicate Gapless(extents: seq<Extent>) {
    && extents != [] && extents[0].offset == 0
    && (forall i | 0 <= i < |extents| :: WellPlaced(extents[i]))
    && (forall i | 0 < i < |extents| :: JoinsAt(extents, i))
  }

  predicate JoinsAt(extents: seq<Extent>, i: nat)
    requires 0 < i < |extents|
  {
    var e, f := extents[i - 1], extents[i];
    f.offset == e.offset + e.pageBytes && f.contentBytes == e.contentBytes && !e.complete
  }

  lemma GaplessPrefix(extents: seq<Extent>, n: nat)
    requires Gapless(extents) && 0 < n <= |extents|
    ensures Gapless(extents[..n])
  {
    var front := extents[..n];
    forall i | 0 < i < |front|
      ensures JoinsAt(front, i)
    {
      assert JoinsAt(extents, i) && front[i] == extents[i] && front[i - 1] == extents[i - 1];
    }
  }

  lemma {:induction false} GaplessAssembles(extents: seq<Extent>)
    requires Gapless(extents)
    ensures var last := extents[|extents| - 1];
            && last.contentBytes == extents[0].contentBytes
            && |Assembled(extents)| == last.offset + last.pageBytes <= last.contentBytes
            && (last.complete <==> |Assembled(extents)| == last.contentBytes)
            && (last.contentBytes > 0 ==> |extents| <= |Assembled(extents)|)
            && (last.contentBytes == 0 ==> |extents| == 1)
  {
    var n := |extents| - 1;
    if n == 0 {
      assert extents[..0] == [];
    } else {
      GaplessPrefix(extents, n);
      GaplessAssembles(extents[..n]);
      assert JoinsAt(extents, n);
    }
  }

  lemma {:induction false} OffsetsIncrease(extents: seq<Extent>, i: nat, j: nat)
    requires Gapless(extents) && i < j < |extents|
    ensures extents[i].offset < extents[j].offset && extents[i].contentBytes == extents[j].contentBytes
  {
    assert JoinsAt(extents, j);
    if i + 1 < j {
      OffsetsIncrease(extents, i, j - 1);
    }
  }

  predicate ContinuesAt(chain: seq<Exchange>, i: nat)
    requires 0 < i < |chain|
  {
    Continues(chain[i - 1].result, chain[i].result)
  }

  lemma AcceptedStep(chain: seq<Exchange>, digest: Digest, i: nat)
    requires Injective(digest) && AcceptedChain(chain, digest) && 0 < i < |chain|
    ensures ContinuesAt(chain, i)
  {
    assert FollowsAt(chain, i);
    AcceptedContinuation(chain[i - 1], chain[i], digest);
  }

  lemma ContinuationJoins(chain: seq<Exchange>, i: nat)
    requires 0 < i < |chain| && ContinuesAt(chain, i)
    ensures JoinsAt(Extents(chain), i)
  {
  }

  lemma AcceptedPageAt(chain: seq<Exchange>, digest: Digest, i: nat)
    requires AcceptedChain(chain, digest) && i < |chain|
    ensures WellPlaced(Extents(chain)[i])
    ensures i == 0 ==> Extents(chain)[i].offset == 0
  {
    var e := chain[i];
    AcceptedPageIsPlaced(e.result, e.request, digest);
    if i == 0 {
      FirstPageStartsAtZero(e, digest);
    }
  }

  lemma AcceptedChainIsGapless(chain: seq<Exchange>, digest: Digest)
    requires Injective(digest) && AcceptedChain(chain, digest)
    ensures Gapless(Extents(chain))
    ensures forall i | 0 < i < |chain| :: ContinuesAt(chain, i)
  {
    forall i | 0 <= i < |chain|
      ensures WellPlaced(Extents(chain)[i])
    {
      AcceptedPageAt(chain, digest, i);
    }
    forall i | 0 < i < |chain|
      ensures ContinuesAt(chain, i) && JoinsAt(Extents(chain), i)
    {
      AcceptedStep(chain, digest, i);
      ContinuationJoins(chain, i);
    }
    AcceptedPageAt(chain, digest, 0);
  }

  lemma FirstPageStartsAtZero(first: Exchange, digest: Digest)
    requires IsValidCommandArtifactPage(first.result, first.request, digest) && !IsContinuation(first.request)
    ensures ExtentOf(first.result).offset == 0
  {
  }

  /**
   * Pages put together: contiguous from offset 0, at most as many pages as bytes (one when
   * there are none), complete exactly when the bytes are as many as the content has.
   */
  ghost predicate Reassembles(extents: seq<Extent>)
    requires extents != []
  {
    var contentBytes, last := extents[0].contentBytes, extents[|extents| - 1];
    && (forall i, j | 0 <= i < j < |extents| :: extents[i].offset < extents[j].offset)
    && (forall i | 0 <= i < |extents| :: extents[i].contentBytes == contentBytes)
    && |Assembled(extents)| == last.offset + last.pageBytes <= contentBytes
    && (last.complete <==> |Assembled(extents)| == contentBytes)
    && |extents| <= (if contentBytes > 0 then contentBytes else 1)
  }

  /** All pages state the same thirteen bound members. */
  ghost predicate SameMetadata(chain: seq<Exchange>) {
    forall i | 0 <= i < |chain| :: SameBinding(chain[0].result, chain[i].result)
  }

  /** A chain of accepted pages reassembles one content under one set of metadata. */
  lemma ChainReassembles(chain: seq<Exchange>, digest: Digest)
    requires Injective(digest) && AcceptedChain(chain, digest)
    ensures Reassembles(Extents(chain)) && SameMetadata(chain)
  {
    AcceptedChainIsGapless(chain, digest);
    GaplessReassembles(Extents(chain));
    ContinuedMetadata(chain);
  }

  lemma GaplessReassembles(extents: seq<Extent>)
    requires Gapless(extents)
    ensures Reassembles(extents)
  {
    GaplessAssembles(extents);
    forall i, j | 0 <= i < j < |extents|
      ensures extents[i].offset < extents[j].offset && extents[i].contentBytes == extents[j].contentBytes
    {
      OffsetsIncrease(extents, i, j);
    }
  }

  lemma ContinuedMetadata(chain: seq<Exchange>)
    requires forall k | 0 < k < |chain| :: ContinuesAt(chain, k)
    ensures SameMetadata(chain)
  {
    forall i | 0 <= i < |chain|
      ensures SameBinding(chain[0].result, chain[i].result)
    {
      SameBindingThroughout(chain, i);
    }
  }

  lemma {:induction false} SameBindingThroughout(chain: seq<Exchange>, i: nat)
    requires i < |chain|
    requires forall k | 0 < k < |chain| :: ContinuesAt(chain, k)
    ensures SameBinding(chain[0].result, chain[i].result)
  {
    if i > 0 {
      SameBindingThroughout(chain, i - 1);
      assert ContinuesAt(chain, i);
      SameBindingTransitive(chain[0].result, chain[i - 1].result, chain[i].result);
    }
  }

  lemma SameBindingTransitive(a: Fields, b: Fields, c: Fields)
    requires SameBinding(a, b) && SameBinding(b, c)
    ensures SameBinding(a, c)
  {
  }

  predicate LiesAt(whole: Octets, e: Extent) {
    e.offset + e.pageBytes <= |whole| && whole[e.offset..e.offset + e.pageBytes] == e.bytes
  }

  /** Where every page lies in the assembled bytes. */
  lemma {:induction false} PageLiesAtItsOffset(extents: seq<Extent>, i: nat)
    requires Gapless(extents) && i < |extents|
    ensures LiesAt(Assembled(extents), extents[i])
  {
    var n := |extents| - 1;
    if n == 0 {
      assert extents[..0] == [];
      LastPageLies([], extents[n]);
    } else {
      GaplessPrefix(extents, n);
      GaplessAssembles(extents[..n]);
      assert JoinsAt(extents, n);
      if i < n {
        PageLiesAtItsOffset(extents[..n], i);
        StillLies(Assembled(extents[..n]), extents[n].bytes, extents[i]);
      } else {
        LastPageLies(Assembled(extents[..n]), extents[n]);
      }
    }
  }

  lemma LastPageLies(front: Octets, last: Extent)
    requires last.offset == |front| && WellPlaced(last)
    ensures LiesAt(front + last.bytes, last)
  {
    SliceOfBack(front, last.bytes);
  }

  lemma StillLies(front: Octets, back: Octets, e: Extent)
    requires LiesAt(front, e)
    ensures LiesAt(front + back, e)
  {
    SliceOfFront(front, back, e.offset, e.offset + e.pageBytes);
  }

  lemma SliceOfBack(front: Octets, back: Octets)
    ensures (front + back)[|front|..|front| + |back|] == back
  {
  }

  lemma SliceOfFront(front: Octets, back: Octets, from: nat, to: nat)
    requires from <= to <= |front|
    ensures (front + back)[from..to] == front[from..to]
  {
  }
}
