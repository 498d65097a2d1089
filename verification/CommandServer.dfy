// The pages that a runtime makes of a command's output, member by member, and that
// isValidCommandArtifactPage (src/agent_runtime_client.cpp) accepts exactly these.

module CommandServer {
  import opened Options
  import opened Bytes
  import opened Json
  import opened Identities
  import opened ContentIdentities
  import opened IdentityLayouts
  import opened CommandPages
  import Decimal

  // ---------------------------------------------------------------------
  // What a page is about

  /** A command's recorded output: `bytes` is the size of its text, with the line for what was left out. */
  datatype Output = Output(
    session: string, item: string, created: nat, source: nat, redactions: nat, retained: nat, omitted: nat,
    sha256: string, bytes: nat)

  /** How much of it the preview shows, and how many lines that is. */
  datatype Shown = Shown(bytes: nat, lines: nat)

  /** The limits a chain of pages is cut by. */
  datatype Cut = Cut(item: nat, total: nat)

  /** One page: where it starts, how long it may be, and its text. */
  datatype Piece = Piece(offset: nat, size: nat, text: string)

  function Reference(o: Output): string {
    "command-output:sha256:" + o.sha256
  }

  /** The line for what was left out takes 40 characters and the digits of the number. */
  function OmissionBytes(omitted: nat): nat {
    if omitted == 0 then 0 else 40 + |Decimal.OfNat(omitted)|
  }

  predicate IsOutput(o: Output) {
    && IsGraphicalId(Text(o.session), 128) && IsGraphicalId(Text(o.item), 128) && IsLowerHexSha256(o.sha256)
    && o.created <= 9007199254740991 && o.source <= 9007199254740991 && o.redactions <= 9007199254740991
    && o.retained + o.omitted <= 9007199254740991 && o.retained <= 2097152
    && o.bytes == o.retained + OmissionBytes(o.omitted)
  }

  predicate IsShown(s: Shown, o: Output) {
    s.bytes <= o.bytes && s.bytes <= 65536 && s.lines <= 1000000 && s.lines <= o.bytes + 1
  }

  predicate IsCut(c: Cut) {
    0 < c.item <= 65536 && c.item <= c.total <= 262144
  }

  /** A page lies inside the output, is no longer than it may be, and is empty only when the output is. */
  predicate IsPiece(p: Piece, c: Cut, o: Output) {
    && 0 < p.size <= c.item && |Utf8(p.text)| <= p.size
    && p.offset + |Utf8(p.text)| <= o.bytes
    && (o.bytes > 0 ==> p.text != "")
  }

  function End(p: Piece): nat {
    p.offset + |Utf8(p.text)|
  }

  // ---------------------------------------------------------------------
  // Names

  function LimitsName(c: Cut, digest: Digest): string {
    Identity(Limits, Hashed([Tag("content-inline-limits/0.1"), Count(c.item), Count(c.total)], digest), digest)
  }

  function BindingPartsOf(o: Output): seq<Part> {
    [Tag("command-output-artifact-page-binding/0.1"), Words(o.session), Words(Reference(o)), Words(o.sha256),
     Words("text/plain; charset=utf-8"), Words(o.item), Count(o.created), Count(o.source), Count(o.redactions),
     Flag(o.redactions > 0), Count(o.retained + o.omitted), Count(o.retained), Count(o.omitted), Flag(o.omitted > 0)]
  }

  function BindingName(o: Output, digest: Digest): string {
    Identity(Binding, Hashed(BindingPartsOf(o), digest), digest)
  }

  function PreviewName(o: Output, s: Shown, digest: Digest): string {
    Identity(Preview, Hashed(
      [Words(Reference(o)), Words(o.sha256), Words("text/plain; charset=utf-8"), Count(o.bytes), Count(s.bytes),
       Flag(s.bytes < o.bytes), CountOrNull(Some(s.lines)), CountOrNull(None), CountOrNull(None)], digest), digest)
  }

  /** A cursor to `offset`, under the names of the limits and of the binding. */
  function CursorName(o: Output, offset: nat, size: nat, limits: string, binding: string, digest: Digest): string {
    Identity(Cursor, Hashed(
      [Words(Reference(o)), Words(o.sha256), Count(o.bytes), Words("text/plain; charset=utf-8"), Count(offset), Count(size),
       Words(limits)] + BindingParts(Some(binding)), digest), digest)
  }

  function PageName(o: Output, p: Piece, limits: string, binding: string, next: string, digest: Digest): string {
    Identity(Page, Hashed(
      [Words(Reference(o)), Words(o.sha256), Count(o.bytes), Words("text/plain; charset=utf-8"), Count(p.offset),
       Count(p.size), Count(|Utf8(p.text)|), DigestOf(p.text), Flag(false), Words(limits)]
      + BindingParts(Some(binding)) + [Words(next)], digest), digest)
  }

  /** The names that occur in a page and in the request for it: `here` is a cursor to its start, `next` one to its end. */
  datatype Labels = Labels(limits: string, binding: string, preview: string, here: string, next: string, page: string)

  predicate SpellsOut(l: Labels, o: Output, s: Shown, c: Cut, p: Piece, digest: Digest) {
    && l.limits == LimitsName(c, digest)
    && l.binding == BindingName(o, digest)
    && l.preview == PreviewName(o, s, digest)
    && l.here == CursorName(o, p.offset, p.size, l.limits, l.binding, digest)
    && l.next == (if End(p) == o.bytes then "none" else CursorName(o, End(p), p.size, l.limits, l.binding, digest))
    && l.page == PageName(o, p, l.limits, l.binding, l.next, digest)
  }

  // ---------------------------------------------------------------------
  // The objects, member by member

  predicate IsNamed(named: Fields, name: string) {
    Value(named, "identity") == Text(name)
  }

  predicate HasLimitsMembers(limits: Fields, c: Cut) {
    && Value(limits, "schema_version") == Text("content-inline-limits/0.1")
    && Value(limits, "max_item_bytes") == Integer(c.item)
    && Value(limits, "max_total_bytes") == Integer(c.total)
  }

  predicate IsLimits(limits: Fields, c: Cut, name: string) {
    && limits.Keys == {"schema_version", "max_item_bytes", "max_total_bytes", "identity"}
    && HasLimitsMembers(limits, c) && IsNamed(limits, name)
  }

  /** The three members by which an object names the output. */
  predicate Names(holder: Fields, o: Output) {
    && Value(holder, "reference") == Text(Reference(o))
    && Value(holder, "sha256") == Text(o.sha256)
    && Value(holder, "media_type") == Text("text/plain; charset=utf-8")
  }

  predicate HasPreviewMembers(preview: Fields, o: Output, s: Shown) {
    && Value(preview, "schema_version") == Text("content-preview/0.1")
    && Names(preview, o)
    && Value(preview, "content_bytes") == Integer(o.bytes)
    && Value(preview, "preview_bytes") == Integer(s.bytes)
    && Value(preview, "truncated") == Boolean(s.bytes < o.bytes)
    && Value(preview, "line_count") == Integer(s.lines)
    && Value(preview, "width") == Null && Value(preview, "height") == Null
  }

  predicate IsPreview(preview: Fields, o: Output, s: Shown, name: string) {
    && preview.Keys
       == {"schema_version", "identity", "reference", "sha256", "media_type", "content_bytes", "preview_bytes",
           "truncated", "line_count", "width", "height"}
    && HasPreviewMembers(preview, o, s) && IsNamed(preview, name)
  }

  predicate HasContentMembers(content: Fields, o: Output) {
    && Value(content, "schema_version") == Text("content-reference/0.1")
    && Names(content, o)
    && Value(content, "bytes") == Integer(o.bytes)
    && Value(content, "preview").Object?
  }

  predicate IsContent(content: Fields, o: Output) {
    && content.Keys == {"schema_version", "reference", "sha256", "bytes", "media_type", "preview"}
    && HasContentMembers(content, o)
  }

  predicate HasCursorMembers(cursor: Fields, o: Output, offset: nat, size: nat, binding: string) {
    && Value(cursor, "schema_version") == Text("content-reference-cursor/0.1")
    && Names(cursor, o)
    && Value(cursor, "bytes") == Integer(o.bytes)
    && Value(cursor, "offset") == Integer(offset)
    && Value(cursor, "page_size") == Integer(size)
    && Value(cursor, "limits").Object?
    && Value(cursor, "binding_identity") == Text(binding)
  }

  predicate IsCursor(cursor: Fields, o: Output, c: Cut, offset: nat, size: nat, l: Labels, name: string) {
    && cursor.Keys
       == {"schema_version", "reference", "sha256", "bytes", "media_type", "offset", "page_size", "limits",
           "binding_identity", "identity"}
    && HasCursorMembers(cursor, o, offset, size, l.binding) && IsNamed(cursor, name)
    && IsLimits(ToFields(Value(cursor, "limits")), c, l.limits)
  }

  predicate HasPageMembers(page: Fields, o: Output, p: Piece, binding: string) {
    && Value(page, "schema_version") == Text("content-reference-page/0.1")
    && Names(page, o)
    && Value(page, "bytes") == Integer(o.bytes)
    && Value(page, "offset") == Integer(p.offset)
    && Value(page, "page_size") == Integer(p.size)
    && Value(page, "page_bytes") == Integer(|Utf8(p.text)|)
    && Value(page, "inline") == Text(p.text)
    && Value(page, "inline_truncated") == Boolean(false)
    && Value(page, "limits").Object?
    && Value(page, "binding_identity") == Text(binding)
  }

  /** The cursor to the rest, or null on the last page. */
  predicate IsNext(next: Json, o: Output, c: Cut, p: Piece, l: Labels) {
    if End(p) == o.bytes then next == Null else next.Object? && IsCursor(next.fields, o, c, End(p), p.size, l, l.next)
  }

  predicate IsPage(page: Fields, o: Output, c: Cut, p: Piece, l: Labels) {
    && page.Keys
       == {"schema_version", "reference", "sha256", "bytes", "media_type", "offset", "page_size", "page_bytes", "inline",
           "inline_truncated", "limits", "binding_identity", "next_cursor", "identity"}
    && HasPageMembers(page, o, p, l.binding) && IsNamed(page, l.page)
    && IsLimits(ToFields(Value(page, "limits")), c, l.limits)
    && IsNext(Value(page, "next_cursor"), o, c, p, l)
  }

  predicate HasResultMembers(result: Fields, o: Output) {
    && Value(result, "schema_version") == Text("command-output-artifact-page/0.1")
    && Value(result, "session_id") == Text(o.session)
    && Value(result, "item_id") == Text(o.item)
    && Value(result, "content_reference").Object?
    && Value(result, "page").Object?
    && Value(result, "read_only") == Boolean(true)
  }

  predicate HasTotals(result: Fields, o: Output) {
    && Value(result, "created_at_ms") == Integer(o.created)
    && Value(result, "source_bytes") == Integer(o.source)
    && Value(result, "redacted_count") == Integer(o.redactions)
    && Value(result, "redacted") == Boolean(o.redactions > 0)
    && Value(result, "total_bytes") == Integer(o.retained + o.omitted)
    && Value(result, "retained_bytes") == Integer(o.retained)
    && Value(result, "omitted_bytes") == Integer(o.omitted)
    && Value(result, "truncated") == Boolean(o.omitted > 0)
  }

  predicate IsResult(result: Fields, o: Output, binding: string) {
    && result.Keys
       == {"schema_version", "session_id", "item_id", "binding_identity", "created_at_ms", "content_reference", "page",
           "source_bytes", "redacted_count", "redacted", "total_bytes", "retained_bytes", "omitted_bytes", "truncated",
           "read_only"}
    && HasResultMembers(result, o) && HasTotals(result, o)
    && Value(result, "binding_identity") == Text(binding)
  }

  // ---------------------------------------------------------------------
  // The requests

  predicate AsksAbout(request: Fields, o: Output) {
    && Value(request, "session_id") == Text(o.session)
    && Value(request, "item_id") == Text(o.item)
    && Value(request, "reference") == Text(Reference(o))
  }

  function Least(a: nat, b: nat): nat {
    if a <= b then a else b
  }

  /** The limits asked for, when the request is a first one. */
  type Asked = Option<(nat, nat)>

  /** A first request: the limits asked for, and the cut they come to. */
  predicate IsFirstRequest(request: Fields, o: Output, limit: nat, total: nat, c: Cut) {
    && request.Keys == {"session_id", "item_id", "reference", "limit", "max_total_inline_bytes"}
    && AsksAbout(request, o)
    && 0 < limit <= 9007199254740991 && Value(request, "limit") == Integer(limit)
    && 0 < total <= 9007199254740991 && Value(request, "max_total_inline_bytes") == Integer(total)
    && c == Cut(Least(Least(limit, 65536), Least(total, 262144)), Least(total, 262144))
  }

  /** A continuation: it carries a cursor to where the page starts. */
  predicate IsNextRequest(request: Fields, o: Output, c: Cut, p: Piece, l: Labels) {
    && request.Keys == {"session_id", "item_id", "reference", "cursor"}
    && AsksAbout(request, o)
    && Value(request, "cursor").Object?
    && IsCursor(Value(request, "cursor").fields, o, c, p.offset, p.size, l, l.here)
  }

  predicate IsRequest(request: Fields, o: Output, c: Cut, p: Piece, l: Labels, asked: Asked) {
    match asked
    case Some((limit, total)) => IsFirstRequest(request, o, limit, total, c) && p.offset == 0 && p.size == c.item
    case None => IsNextRequest(request, o, c, p, l)
  }

  /** The result is the page `p` of the output, under the given names. */
  predicate Serves(result: Fields, o: Output, s: Shown, c: Cut, p: Piece, l: Labels) {
    && IsOutput(o) && IsShown(s, o) && IsCut(c) && IsPiece(p, c, o)
    && IsResult(result, o, l.binding)
    && IsContent(ContentOf(result), o)
    && IsPreview(PreviewOf(result), o, s, l.preview)
    && IsPage(PageOf(result), o, c, p, l)
  }

  // ---------------------------------------------------------------------
  // The names are the identities that the client computes

  lemma LimitsNamed(limits: Fields, c: Cut, digest: Digest)
    requires IsCut(c) && HasLimitsMembers(limits, c)
    ensures ContentInlineLimitsIdentity(limits, digest) == LimitsName(c, digest)
  {
    LimitsLayout(limits, c.item, c.total, digest);
  }

  predicate HasSafeNumbers(o: Output) {
    && o.created <= 9007199254740991 && o.source <= 9007199254740991 && o.redactions <= 9007199254740991
    && o.retained + o.omitted <= 9007199254740991
  }

  predicate NamesOutput(result: Fields, content: Fields, o: Output) {
    && Value(result, "session_id") == Text(o.session) && Value(result, "item_id") == Text(o.item)
    && Names(content, o)
  }

  lemma AreItsNames(p: seq<Part>, result: Fields, content: Fields, o: Output)
    requires p == [Tag("command-output-artifact-page-binding/0.1"), Words(o.session), Words(Reference(o)), Words(o.sha256),
                   Words("text/plain; charset=utf-8"), Words(o.item)]
    requires NamesOutput(result, content, o)
    ensures AreBindingNames(p, result, content)
  {
  }

  lemma AreItsNumbers(p: seq<Part>, result: Fields, o: Output)
    requires p == [Count(o.created), Count(o.source), Count(o.redactions), Flag(o.redactions > 0),
                   Count(o.retained + o.omitted), Count(o.retained), Count(o.omitted), Flag(o.omitted > 0)]
    requires HasSafeNumbers(o) && HasTotals(result, o)
    ensures AreBindingNumbers(p, result)
  {
  }

  lemma AreItsBindingParts(p: seq<Part>, result: Fields, content: Fields, o: Output)
    requires p == BindingPartsOf(o) && HasSafeNumbers(o)
    requires NamesOutput(result, content, o) && HasTotals(result, o)
    ensures AreBindingParts(p, result, content)
  {
    AreItsNames(p[..6], result, content, o);
    AreItsNumbers(p[6..], result, o);
  }

  lemma BindingNamed(result: Fields, content: Fields, o: Output, digest: Digest)
    requires HasSafeNumbers(o) && ToFields(Value(result, "content_reference")) == content
    requires NamesOutput(result, content, o) && HasTotals(result, o)
    ensures CommandArtifactPageBindingIdentity(result, digest) == BindingName(o, digest)
  {
    var p := BindingPartsOf(o);
    AreItsBindingParts(p, result, content, o);
    BindingLayout(p, result, content, digest);
  }

  lemma PreviewNamed(preview: Fields, o: Output, s: Shown, digest: Digest)
    requires IsShown(s, o) && o.bytes <= 9007199254740991 && HasPreviewMembers(preview, o, s)
    ensures ContentPreviewIdentity(preview, digest) == PreviewName(o, s, digest)
  {
    PreviewLayout(preview, Reference(o), o.sha256, "text/plain; charset=utf-8", o.bytes, s.bytes, s.bytes < o.bytes,
                  Some(s.lines), None, None, digest);
  }

  lemma CursorNamed(cursor: Fields, o: Output, offset: nat, size: nat, limits: string, binding: string, digest: Digest)
    requires o.bytes <= 9007199254740991 && offset <= 9007199254740991 && size <= 9007199254740991
    requires HasCursorMembers(cursor, o, offset, size, binding) && IsNamed(ToFields(Value(cursor, "limits")), limits)
    ensures ContentReferenceCursorIdentity(cursor, digest) == CursorName(o, offset, size, limits, binding, digest)
  {
    CursorLayout(cursor, Reference(o), o.sha256, o.bytes, "text/plain; charset=utf-8", offset, size, limits,
                 Some(binding), digest);
  }

  lemma PageNamed(page: Fields, o: Output, c: Cut, p: Piece, limits: string, binding: string, next: string, digest: Digest)
    requires o.bytes <= 9007199254740991 && IsCut(c) && IsPiece(p, c, o) && HasPageMembers(page, o, p, binding)
    requires IsNamed(ToFields(Value(page, "limits")), limits)
    requires if Value(page, "next_cursor").Object? then IsNamed(Value(page, "next_cursor").fields, next)
             else Value(page, "next_cursor") == Null && next == "none"
    ensures ContentReferencePageIdentity(page, digest) == PageName(o, p, limits, binding, next, digest)
  {
    PageLayout(page, Reference(o), o.sha256, o.bytes, "text/plain; charset=utf-8", p.offset, p.size, |Utf8(p.text)|, p.text,
               false, limits, Some(binding), next, digest);
  }

  // ---------------------------------------------------------------------
  // Digests of 32 bytes, as SHA-256 makes them

  ghost predicate IsSha256(digest: Digest) {
    forall bytes :: |digest(bytes)| == 32
  }

  lemma PrefixedDigest(prefix: string, hex: string)
    requires IsLowerHexSha256(hex)
    ensures IsSha256Identity(prefix + hex, prefix)
  {
    assert (prefix + hex)[|prefix|..] == hex;
  }

  lemma NameForm(domain: Domain, components: seq<Octets>, digest: Digest)
    requires IsSha256(digest)
    ensures IsSha256Identity(Identity(domain, components, digest), domain.Prefix())
  {
    var bytes := digest(Material(domain, components));
    DigestText(bytes);
    PrefixedDigest(domain.Prefix(), Hex(bytes));
  }

  lemma {:induction false} AsciiSize(text: string)
    requires IsAscii(text)
    ensures |Utf8(text)| == |text|
  {
    LatinIsUtf8(text);
  }

  lemma MarkerParts(digits: string)
    ensures |"\n[Aegisy omitted " + digits + " command output bytes]\n"| == 40 + |digits|
    ensures IsAscii("\n[Aegisy omitted ") && IsAscii(" command output bytes]\n")
  {
  }

  lemma AsciiConcatenation(a: string, b: string, c: string)
    requires IsAscii(a) && IsAscii(b) && IsAscii(c)
    ensures IsAscii(a + b + c)
  {
  }

  lemma DigitsAreAscii(n: nat)
    ensures IsAscii(Decimal.OfNat(n))
  {
    var digits := Decimal.OfNat(n);
    forall i | 0 <= i < |digits|
      ensures digits[i] as int < 0x80
    {
      assert digits[i] in digits;
    }
  }

  /** The size of the line for what was left out. */
  lemma OmissionSize(omitted: nat)
    ensures MarkerBytes(omitted) == OmissionBytes(omitted)
  {
    var digits := Decimal.OfNat(omitted);
    MarkerParts(digits);
    DigitsAreAscii(omitted);
    AsciiConcatenation("\n[Aegisy omitted ", digits, " command output bytes]\n");
    AsciiSize(Marker(omitted));
  }

  lemma OutputIsBounded(o: Output)
    requires IsOutput(o)
    ensures o.bytes <= MAXIMUM_CONTENT_BYTES
  {
    OmissionSize(o.omitted);
    MarkerIsShort(o.omitted);
  }

  // ---------------------------------------------------------------------
  // What a runtime serves is accepted, part by part

  lemma ServedRequest(request: Fields, o: Output, c: Cut, p: Piece, l: Labels, asked: Asked)
    requires IsOutput(o) && IsRequest(request, o, c, p, l, asked)
    ensures RequestShape(request) && (IsContinuation(request) <==> asked.None?)
  {
  }

  lemma ServedResult(result: Fields, request: Fields, o: Output, binding: string)
    requires IsResult(result, o, binding) && AsksAbout(request, o)
    ensures ResultShape(result, request)
  {
  }

  lemma ServedTotals(result: Fields, o: Output)
    requires HasSafeNumbers(o) && o.retained <= 2097152 && HasTotals(result, o)
    ensures Totals(result)
  {
  }

  lemma ServedContent(result: Fields, request: Fields, content: Fields, o: Output, marker: nat)
    requires o.retained <= 9007199254740991 && o.omitted <= 9007199254740991 && IsLowerHexSha256(o.sha256)
    requires o.bytes <= MAXIMUM_CONTENT_BYTES && o.bytes == o.retained + marker && marker == MarkerBytes(o.omitted)
    requires Value(request, "reference") == Text(Reference(o)) && HasTotals(result, o)
    requires content == ContentOf(result) && IsContent(content, o)
    ensures ContentShape(result, request)
  {
    assert Number(content, "bytes") == o.bytes;
    assert Number(result, "retained_bytes") == o.retained && Number(result, "omitted_bytes") == o.omitted;
    assert Add64(o.retained, marker) == o.bytes;
  }

  lemma ServedPreview(result: Fields, content: Fields, preview: Fields, o: Output, s: Shown, name: string)
    requires IsShown(s, o) && o.bytes <= MAXIMUM_CONTENT_BYTES
    requires content == ContentOf(result) && HasContentMembers(content, o)
    requires preview == PreviewOf(result) && IsPreview(preview, o, s, name)
    requires IsSha256Identity(name, "content-preview:sha256:")
    ensures PreviewForm(result)
  {
    assert Number(content, "bytes") == o.bytes && Number(preview, "content_bytes") == o.bytes;
    assert Number(preview, "preview_bytes") == s.bytes && Number(preview, "line_count") == s.lines;
    assert Add64(o.bytes, 1) == o.bytes + 1;
    assert NamesContent(preview, content);
  }

  lemma PreviewNameForm(o: Output, s: Shown, digest: Digest)
    requires IsSha256(digest)
    ensures IsSha256Identity(PreviewName(o, s, digest), "content-preview:sha256:")
  {
    NameForm(Preview, Hashed(
      [Words(Reference(o)), Words(o.sha256), Words("text/plain; charset=utf-8"), Count(o.bytes), Count(s.bytes),
       Flag(s.bytes < o.bytes), CountOrNull(Some(s.lines)), CountOrNull(None), CountOrNull(None)], digest), digest);
  }

  lemma ServedLimits(limits: Fields, c: Cut, name: string, digest: Digest)
    requires IsCut(c) && IsLimits(limits, c, name) && ContentInlineLimitsIdentity(limits, digest) == name
    ensures LimitsShape(limits, digest)
  {
  }

  lemma ServedPage(result: Fields, page: Fields, content: Fields, o: Output, c: Cut, p: Piece, l: Labels)
    requires page == PageOf(result) && content == ContentOf(result)
    requires HasContentMembers(content, o) && IsPage(page, o, c, p, l) && Value(result, "binding_identity") == Text(l.binding)
    ensures PageShape(result)
  {
    assert NamesContent(page, content);
  }

  lemma ServedPlace(result: Fields, page: Fields, limits: Fields, o: Output, c: Cut, p: Piece, binding: string)
    requires o.bytes <= MAXIMUM_CONTENT_BYTES && IsCut(c) && IsPiece(p, c, o)
    requires HasContentMembers(ContentOf(result), o)
    requires page == PageOf(result) && HasPageMembers(page, o, p, binding)
    requires limits == LimitsOf(result) && HasLimitsMembers(limits, c)
    ensures PagePlace(result)
  {
    assert Number(page, "offset") == p.offset && Number(page, "page_size") == p.size;
    assert Number(page, "page_bytes") == |Utf8(p.text)| && Number(page, "bytes") == o.bytes;
    assert Number(ContentOf(result), "bytes") == o.bytes && Number(limits, "max_item_bytes") == c.item;
    assert Subtract64(o.bytes, Min(p.offset, o.bytes)) == o.bytes - p.offset;
  }

  lemma ServedCursor(cursor: Fields, content: Fields, o: Output, c: Cut, offset: nat, size: nat, l: Labels, name: string)
    requires HasContentMembers(content, o) && IsCursor(cursor, o, c, offset, size, l, name)
    ensures CursorShape(cursor, content)
  {
  }

  lemma ServedNext(result: Fields, page: Fields, o: Output, c: Cut, p: Piece, l: Labels)
    requires o.bytes <= MAXIMUM_CONTENT_BYTES && IsPiece(p, c, o)
    requires HasContentMembers(ContentOf(result), o) && Value(result, "binding_identity") == Text(l.binding)
    requires page == PageOf(result) && HasPageMembers(page, o, p, l.binding) && IsNext(Value(page, "next_cursor"), o, c, p, l)
    requires Value(page, "next_cursor").Object? ==>
               && CursorShape(Value(page, "next_cursor").fields, ContentOf(result))
               && Value(Value(page, "next_cursor").fields, "limits") == Value(page, "limits")
    ensures NextCursorForm(result)
  {
    assert Number(page, "offset") == p.offset && Number(page, "page_bytes") == |Utf8(p.text)|;
    assert Number(ContentOf(result), "bytes") == o.bytes;
    assert Add64(p.offset, |Utf8(p.text)|) == End(p);
  }

  /** Limits are determined by their cut and their name. */
  lemma LimitsDetermined(a: Fields, b: Fields, c: Cut, name: string)
    requires IsLimits(a, c, name) && IsLimits(b, c, name)
    ensures a == b
  {
    forall key | key in a
      ensures key in b && a[key] == b[key]
    {
      assert Value(a, key) == a[key] && Value(b, key) == b[key];
    }
  }

  lemma ServedContinuation(result: Fields, request: Fields, cursor: Fields, page: Fields, o: Output, c: Cut, p: Piece, l: Labels)
    requires HasContentMembers(ContentOf(result), o)
    requires page == PageOf(result) && HasPageMembers(page, o, p, l.binding)
    requires Value(request, "cursor") == Object(cursor) && HasCursorMembers(cursor, o, p.offset, p.size, l.binding)
    requires IsLimits(ToFields(Value(cursor, "limits")), c, l.limits)
    requires CursorShape(cursor, ContentOf(result)) && Value(cursor, "limits") == Value(page, "limits")
    ensures ContinuationForm(result, request)
  {
  }

  lemma ServedFirst(result: Fields, request: Fields, page: Fields, limits: Fields, o: Output, limit: nat,
      total: nat, c: Cut, p: Piece, binding: string)
    requires IsFirstRequest(request, o, limit, total, c) && p.offset == 0 && p.size == c.item && c.item <= 65536
             && c.total <= 262144
    requires page == PageOf(result) && HasPageMembers(page, o, p, binding)
    requires limits == LimitsOf(result) && HasLimitsMembers(limits, c)
    ensures FirstPageShape(result, request)
  {
    assert Number(request, "limit") == limit && Number(request, "max_total_inline_bytes") == total;
    assert Number(page, "offset") == 0 && Number(page, "page_size") == c.item;
    assert Number(limits, "max_item_bytes") == c.item && Number(limits, "max_total_bytes") == c.total;
  }

  lemma SameLimits(x: Json, y: Json, c: Cut, name: string)
    requires x.Object? && y.Object? && IsLimits(ToFields(x), c, name) && IsLimits(ToFields(y), c, name)
    ensures x == y
  {
    LimitsDetermined(x.fields, y.fields, c, name);
  }

  lemma AcceptedForms(result: Fields, request: Fields, o: Output, s: Shown, c: Cut, p: Piece, l: Labels, asked: Asked)
    requires Serves(result, o, s, c, p, l) && IsRequest(request, o, c, p, l, asked)
    ensures RequestShape(request) && (IsContinuation(request) <==> asked.None?)
    ensures ResultShape(result, request) && Totals(result) && ContentShape(result, request)
    ensures o.bytes <= MAXIMUM_CONTENT_BYTES
  {
    ServedRequest(request, o, c, p, l, asked);
    ServedResult(result, request, o, l.binding);
    ServedTotals(result, o);
    OutputIsBounded(o);
    OmissionSize(o.omitted);
    ServedContent(result, request, ContentOf(result), o, MarkerBytes(o.omitted));
  }

  lemma AcceptedPreview(result: Fields, o: Output, s: Shown, name: string, digest: Digest)
    requires IsSha256(digest) && name == PreviewName(o, s, digest)
    requires o.bytes <= MAXIMUM_CONTENT_BYTES && IsShown(s, o)
    requires HasContentMembers(ContentOf(result), o) && IsPreview(PreviewOf(result), o, s, name)
    ensures PreviewShape(result, digest)
  {
    PreviewNamed(PreviewOf(result), o, s, digest);
    PreviewNameForm(o, s, digest);
    ServedPreview(result, ContentOf(result), PreviewOf(result), o, s, name);
  }

  lemma AcceptedLimits(limits: Fields, c: Cut, name: string, digest: Digest)
    requires IsCut(c) && name == LimitsName(c, digest) && IsLimits(limits, c, name)
    ensures LimitsShape(limits, digest)
  {
    LimitsNamed(limits, c, digest);
    ServedLimits(limits, c, name, digest);
  }

  lemma AcceptedBinding(result: Fields, o: Output, binding: string, digest: Digest)
    requires HasSafeNumbers(o) && binding == BindingName(o, digest)
    requires NamesOutput(result, ContentOf(result), o) && HasTotals(result, o)
    requires Value(result, "binding_identity") == Text(binding)
    ensures CommandArtifactPageBindingIdentity(result, digest) == binding && binding != ""
    ensures BindingShape(result, digest)
  {
    BindingNamed(result, ContentOf(result), o, digest);
    NotEmpty(Binding, Hashed(BindingPartsOf(o), digest), digest);
  }

  lemma AcceptedCursor(cursor: Fields, o: Output, c: Cut, offset: nat, size: nat, l: Labels, name: string, digest: Digest)
    requires o.bytes <= 9007199254740991 && offset <= 9007199254740991 && size <= 9007199254740991
    requires name == CursorName(o, offset, size, l.limits, l.binding, digest) && IsCursor(cursor, o, c, offset, size, l, name)
    ensures CursorIsNamed(cursor, digest)
  {
    CursorNamed(cursor, o, offset, size, l.limits, l.binding, digest);
  }

  lemma AcceptedPage(result: Fields, page: Fields, o: Output, c: Cut, p: Piece, l: Labels, digest: Digest)
    requires o.bytes <= MAXIMUM_CONTENT_BYTES && IsCut(c) && IsPiece(p, c, o)
    requires HasContentMembers(ContentOf(result), o) && Value(result, "binding_identity") == Text(l.binding)
    requires page == PageOf(result) && IsPage(page, o, c, p, l)
    requires l.page == PageName(o, p, l.limits, l.binding, l.next, digest) && (End(p) == o.bytes ==> l.next == "none")
    ensures PageShape(result) && PageNumbers(result, digest)
  {
    ServedPage(result, page, ContentOf(result), o, c, p, l);
    ServedPlace(result, page, LimitsOf(result), o, c, p, l.binding);
    PageNamed(page, o, c, p, l.limits, l.binding, l.next, digest);
  }

  lemma AcceptedNext(result: Fields, page: Fields, o: Output, c: Cut, p: Piece, l: Labels, digest: Digest)
    requires o.bytes <= MAXIMUM_CONTENT_BYTES && IsCut(c) && IsPiece(p, c, o)
    requires HasContentMembers(ContentOf(result), o) && Value(result, "binding_identity") == Text(l.binding)
    requires page == PageOf(result) && IsPage(page, o, c, p, l)
    requires End(p) == o.bytes || l.next == CursorName(o, End(p), p.size, l.limits, l.binding, digest)
    ensures NextCursorShape(result, digest)
  {
    if End(p) != o.bytes {
      var cursor := Value(page, "next_cursor").fields;
      ServedCursor(cursor, ContentOf(result), o, c, End(p), p.size, l, l.next);
      SameLimits(Value(cursor, "limits"), Value(page, "limits"), c, l.limits);
      AcceptedCursor(cursor, o, c, End(p), p.size, l, l.next, digest);
    }
    ServedNext(result, page, o, c, p, l);
  }

  lemma AcceptedAsContinuation(
      result: Fields, request: Fields, page: Fields, o: Output, c: Cut, p: Piece, l: Labels, digest: Digest)
    requires o.bytes <= MAXIMUM_CONTENT_BYTES && IsCut(c) && IsPiece(p, c, o)
    requires HasContentMembers(ContentOf(result), o)
    requires page == PageOf(result) && IsPage(page, o, c, p, l)
    requires IsNextRequest(request, o, c, p, l)
    requires l.here == CursorName(o, p.offset, p.size, l.limits, l.binding, digest) && l.limits == LimitsName(c, digest)
    requires CommandArtifactPageBindingIdentity(result, digest) == l.binding
    ensures ContinuationShape(result, request, digest)
  {
    var cursor := Value(request, "cursor").fields;
    ServedCursor(cursor, ContentOf(result), o, c, p.offset, p.size, l, l.here);
    SameLimits(Value(cursor, "limits"), Value(page, "limits"), c, l.limits);
    AcceptedCursor(cursor, o, c, p.offset, p.size, l, l.here, digest);
    LimitsNamed(ToFields(Value(cursor, "limits")), c, digest);
    ServedContinuation(result, request, cursor, page, o, c, p, l);
  }

  lemma AcceptedAbout(result: Fields, o: Output, s: Shown, c: Cut, p: Piece, l: Labels, digest: Digest)
    requires IsSha256(digest) && SpellsOut(l, o, s, c, p, digest) && Serves(result, o, s, c, p, l)
    requires o.bytes <= MAXIMUM_CONTENT_BYTES
    ensures PreviewShape(result, digest) && LimitsShape(LimitsOf(result), digest)
  {
    AcceptedPreview(result, o, s, l.preview, digest);
    AcceptedLimits(LimitsOf(result), c, l.limits, digest);
  }

  lemma BindingAccepted(result: Fields, o: Output, s: Shown, c: Cut, p: Piece, l: Labels, digest: Digest)
    requires SpellsOut(l, o, s, c, p, digest) && Serves(result, o, s, c, p, l)
    ensures CommandArtifactPageBindingIdentity(result, digest) == l.binding && BindingShape(result, digest)
  {
    AcceptedBinding(result, o, l.binding, digest);
  }

  lemma PageAccepted(result: Fields, o: Output, s: Shown, c: Cut, p: Piece, l: Labels, digest: Digest)
    requires SpellsOut(l, o, s, c, p, digest) && Serves(result, o, s, c, p, l) && o.bytes <= MAXIMUM_CONTENT_BYTES
    ensures PageShape(result) && PageNumbers(result, digest)
  {
    AcceptedPage(result, PageOf(result), o, c, p, l, digest);
  }

  lemma NextAccepted(result: Fields, o: Output, s: Shown, c: Cut, p: Piece, l: Labels, digest: Digest)
    requires SpellsOut(l, o, s, c, p, digest) && Serves(result, o, s, c, p, l) && o.bytes <= MAXIMUM_CONTENT_BYTES
    ensures NextCursorShape(result, digest)
  {
    AcceptedNext(result, PageOf(result), o, c, p, l, digest);
  }

  lemma ContinuationAccepted(
      result: Fields, request: Fields, o: Output, s: Shown, c: Cut, p: Piece, l: Labels, digest: Digest)
    requires SpellsOut(l, o, s, c, p, digest) && Serves(result, o, s, c, p, l) && IsNextRequest(request, o, c, p, l)
    requires o.bytes <= MAXIMUM_CONTENT_BYTES && CommandArtifactPageBindingIdentity(result, digest) == l.binding
    ensures ContinuationShape(result, request, digest)
  {
    AcceptedAsContinuation(result, request, PageOf(result), o, c, p, l, digest);
  }

  lemma FirstAccepted(result: Fields, request: Fields, o: Output, s: Shown, c: Cut, p: Piece, l: Labels, limit: nat, total: nat)
    requires Serves(result, o, s, c, p, l) && IsFirstRequest(request, o, limit, total, c) && p.offset == 0 && p.size == c.item
    ensures FirstPageShape(result, request)
  {
    ServedFirst(result, request, PageOf(result), LimitsOf(result), o, limit, total, c, p, l.binding);
  }

  predicate AboutOutput(result: Fields, request: Fields, digest: Digest) {
    && RequestShape(request) && ResultShape(result, request) && Totals(result) && ContentShape(result, request)
    && PreviewShape(result, digest) && LimitsShape(LimitsOf(result), digest) && BindingShape(result, digest)
  }

  predicate OnPage(result: Fields, digest: Digest) {
    PageShape(result) && PageNumbers(result, digest) && NextCursorShape(result, digest)
  }

  predicate AboutPage(result: Fields, request: Fields, digest: Digest) {
    && OnPage(result, digest)
    && if IsContinuation(request) then ContinuationShape(result, request, digest) else FirstPageShape(result, request)
  }

  lemma ServedAboutOutput(
      result: Fields, request: Fields, o: Output, s: Shown, c: Cut, p: Piece, l: Labels, asked: Asked, digest: Digest)
    requires IsSha256(digest) && SpellsOut(l, o, s, c, p, digest)
    requires Serves(result, o, s, c, p, l) && IsRequest(request, o, c, p, l, asked)
    ensures AboutOutput(result, request, digest)
  {
    AcceptedForms(result, request, o, s, c, p, l, asked);
    AcceptedAbout(result, o, s, c, p, l, digest);
    BindingAccepted(result, o, s, c, p, l, digest);
  }

  lemma ServedOnPage(result: Fields, o: Output, s: Shown, c: Cut, p: Piece, l: Labels, digest: Digest)
    requires SpellsOut(l, o, s, c, p, digest) && Serves(result, o, s, c, p, l)
    ensures OnPage(result, digest)
  {
    OutputIsBounded(o);
    PageAccepted(result, o, s, c, p, l, digest);
    NextAccepted(result, o, s, c, p, l, digest);
  }

  lemma ServedAnswer(
      result: Fields, request: Fields, o: Output, s: Shown, c: Cut, p: Piece, l: Labels, asked: Asked, digest: Digest)
    requires SpellsOut(l, o, s, c, p, digest) && Serves(result, o, s, c, p, l) && IsRequest(request, o, c, p, l, asked)
    ensures if asked.None? then ContinuationShape(result, request, digest) else FirstPageShape(result, request)
  {
    match asked {
      case None =>
        OutputIsBounded(o);
        BindingAccepted(result, o, s, c, p, l, digest);
        ContinuationAccepted(result, request, o, s, c, p, l, digest);
      case Some((limit, total)) => FirstAccepted(result, request, o, s, c, p, l, limit, total);
    }
  }

  lemma ServedAboutPage(
      result: Fields, request: Fields, o: Output, s: Shown, c: Cut, p: Piece, l: Labels, asked: Asked, digest: Digest)
    requires IsSha256(digest) && SpellsOut(l, o, s, c, p, digest)
    requires Serves(result, o, s, c, p, l) && IsRequest(request, o, c, p, l, asked)
    ensures AboutPage(result, request, digest)
  {
    ServedRequest(request, o, c, p, l, asked);
    ServedOnPage(result, o, s, c, p, l, digest);
    ServedAnswer(result, request, o, s, c, p, l, asked, digest);
  }

  lemma TwoHalves(result: Fields, request: Fields, digest: Digest)
    requires AboutOutput(result, request, digest) && AboutPage(result, request, digest)
    ensures IsValidCommandArtifactPage(result, request, digest)
  {
  }

  /** Whatever a runtime serves of an output, for a first request or for a cursor, is accepted. */
  lemma ServedIsAccepted(
      result: Fields, request: Fields, o: Output, s: Shown, c: Cut, p: Piece, l: Labels, asked: Asked, digest: Digest)
    requires IsSha256(digest) && SpellsOut(l, o, s, c, p, digest)
    requires Serves(result, o, s, c, p, l) && IsRequest(request, o, c, p, l, asked)
    ensures IsValidCommandArtifactPage(result, request, digest)
  {
    ServedAboutOutput(result, request, o, s, c, p, l, asked, digest);
    ServedAboutPage(result, request, o, s, c, p, l, asked, digest);
    TwoHalves(result, request, digest);
  }

  // ---------------------------------------------------------------------
  // Whatever is accepted is served

  function OutputOf(result: Fields): Output {
    Output(
      ToText(Value(result, "session_id")), ToText(Value(result, "item_id")), Number(result, "created_at_ms"),
      Number(result, "source_bytes"), Number(result, "redacted_count"), Number(result, "retained_bytes"),
      Number(result, "omitted_bytes"), ToText(Value(ContentOf(result), "sha256")), Number(ContentOf(result), "bytes"))
  }

  function ShownOf(preview: Fields): Shown {
    Shown(Number(preview, "preview_bytes"), Number(preview, "line_count"))
  }

  function CutOf(limits: Fields): Cut {
    Cut(Number(limits, "max_item_bytes"), Number(limits, "max_total_bytes"))
  }

  function PieceOf(page: Fields): Piece {
    Piece(Number(page, "offset"), Number(page, "page_size"), ToText(Value(page, "inline")))
  }

  function AskedBy(request: Fields): Asked {
    if IsContinuation(request) then None else Some((Number(request, "limit"), Number(request, "max_total_inline_bytes")))
  }

  lemma TextOf(value: Json, text: string)
    requires ToText(value) == text && text != ""
    ensures value == Text(text)
  {
  }

  lemma NumberOf(members: Fields, key: string)
    requires IsNumber(members, key)
    ensures Value(members, key) == Integer(Number(members, key))
  {
  }

  lemma ResultMembers(result: Fields, request: Fields, o: Output)
    requires RequestShape(request) && ResultShape(result, request)
    requires o.session == ToText(Value(result, "session_id")) && o.item == ToText(Value(result, "item_id"))
    ensures HasResultMembers(result, o) && IsGraphicalId(Text(o.session), 128) && IsGraphicalId(Text(o.item), 128)
    ensures Value(request, "session_id") == Text(o.session) && Value(request, "item_id") == Text(o.item)
  {
  }

  lemma TotalMembers(result: Fields, o: Output)
    requires Totals(result) && o == OutputOf(result)
    requires Value(result, "redacted").Boolean? && Value(result, "truncated").Boolean?
    ensures HasTotals(result, o) && HasSafeNumbers(o) && o.retained <= 2097152
  {
    assert Add64(o.retained, o.omitted) == o.retained + o.omitted;
  }

  lemma ContentMembers(result: Fields, request: Fields, content: Fields, o: Output, marker: nat)
    requires ContentShape(result, request) && content == ContentOf(result)
    requires o.sha256 == ToText(Value(content, "sha256")) && o.bytes == Number(content, "bytes")
    requires o.retained == Number(result, "retained_bytes") && o.omitted == Number(result, "omitted_bytes")
    requires marker == MarkerBytes(o.omitted) && marker <= 240
    ensures IsContent(content, o) && IsLowerHexSha256(o.sha256)
    ensures o.bytes == o.retained + marker && o.bytes <= MAXIMUM_CONTENT_BYTES
    ensures ToText(Value(request, "reference")) == Reference(o)
  {
    NumberOf(content, "bytes");
    TextOf(Value(content, "reference"), Reference(o));
    TextOf(Value(content, "sha256"), o.sha256);
    assert Add64(o.retained, marker) == o.retained + marker;
  }

  lemma PreviewMembers(result: Fields, content: Fields, preview: Fields, o: Output, s: Shown)
    requires PreviewForm(result) && content == ContentOf(result) && HasContentMembers(content, o)
    requires o.bytes <= MAXIMUM_CONTENT_BYTES && IsLowerHexSha256(o.sha256)
    requires preview == PreviewOf(result) && s == ShownOf(preview)
    ensures HasPreviewMembers(preview, o, s) && IsShown(s, o)
  {
    assert Number(content, "bytes") == o.bytes;
    TextOf(Value(preview, "reference"), Reference(o));
    TextOf(Value(preview, "sha256"), o.sha256);
    NumberOf(preview, "content_bytes");
    NumberOf(preview, "preview_bytes");
    NumberOf(preview, "line_count");
    assert Add64(o.bytes, 1) == o.bytes + 1;
  }

  lemma LimitsMembers(limits: Fields, c: Cut, digest: Digest)
    requires LimitsShape(limits, digest) && c == CutOf(limits)
    ensures HasLimitsMembers(limits, c) && IsCut(c)
  {
    NumberOf(limits, "max_item_bytes");
    NumberOf(limits, "max_total_bytes");
  }

  lemma PageMembers(result: Fields, content: Fields, page: Fields, o: Output, p: Piece, binding: string)
    requires PageShape(result) && PagePlace(result) && page == PageOf(result) && p == PieceOf(page)
    requires content == ContentOf(result) && HasContentMembers(content, o) && IsLowerHexSha256(o.sha256)
    requires Value(result, "binding_identity") == Text(binding)
    ensures HasPageMembers(page, o, p, binding)
  {
    TextOf(Value(page, "reference"), Reference(o));
    TextOf(Value(page, "sha256"), o.sha256);
    NumberOf(page, "offset");
    NumberOf(page, "page_size");
    NumberOf(page, "page_bytes");
  }

  lemma PiecePlaced(result: Fields, content: Fields, page: Fields, limits: Fields, o: Output, c: Cut, p: Piece)
    requires PagePlace(result) && page == PageOf(result) && p == PieceOf(page)
    requires content == ContentOf(result) && o.bytes == Number(content, "bytes") && o.bytes <= MAXIMUM_CONTENT_BYTES
    requires limits == LimitsOf(result) && c.item == Number(limits, "max_item_bytes")
    ensures IsPiece(p, c, o)
  {
    assert Subtract64(o.bytes, Min(p.offset, o.bytes)) == o.bytes - Min(p.offset, o.bytes);
  }

  lemma CursorMembers(cursor: Fields, content: Fields, o: Output, offset: nat, size: nat, binding: string)
    requires CursorShape(cursor, content) && HasContentMembers(content, o) && IsLowerHexSha256(o.sha256)
    requires Value(cursor, "bytes") == Integer(o.bytes) && Value(cursor, "offset") == Integer(offset)
    requires Value(cursor, "page_size") == Integer(size) && Value(cursor, "limits").Object?
    requires Value(cursor, "binding_identity") == Text(binding)
    ensures HasCursorMembers(cursor, o, offset, size, binding)
  {
    TextOf(Value(cursor, "reference"), Reference(o));
    TextOf(Value(cursor, "sha256"), o.sha256);
  }

  lemma LimitsAreNamed(limits: Fields, c: Cut, name: string, digest: Digest)
    requires LimitsShape(limits, digest) && c == CutOf(limits) && name == LimitsName(c, digest)
    ensures IsLimits(limits, c, name)
  {
    LimitsMembers(limits, c, digest);
    LimitsNamed(limits, c, digest);
    LimitsNameNotEmpty(c, digest);
    TextOf(Value(limits, "identity"), name);
  }

  lemma LimitsNameNotEmpty(c: Cut, digest: Digest)
    ensures LimitsName(c, digest) != ""
  {
    NotEmpty(Limits, Hashed([Tag("content-inline-limits/0.1"), Count(c.item), Count(c.total)], digest), digest);
  }

  lemma PreviewIsNamed(preview: Fields, o: Output, s: Shown, name: string, digest: Digest)
    requires o.bytes <= MAXIMUM_CONTENT_BYTES && IsShown(s, o) && HasPreviewMembers(preview, o, s)
    requires name == PreviewName(o, s, digest) && ToText(Value(preview, "identity")) == ContentPreviewIdentity(preview, digest)
    requires HasExactKeys(preview, CommandPages.PREVIEW_KEYS) && ToText(Value(preview, "identity")) != ""
    ensures IsPreview(preview, o, s, name)
  {
    PreviewNamed(preview, o, s, digest);
    TextOf(Value(preview, "identity"), name);
  }

  lemma CursorIsWhole(
      cursor: Fields, content: Fields, o: Output, c: Cut, offset: nat, size: nat, l: Labels, name: string, digest: Digest)
    requires o.bytes <= 9007199254740991 && offset <= 9007199254740991 && size <= 9007199254740991
    requires CursorShape(cursor, content) && HasCursorMembers(cursor, o, offset, size, l.binding)
    requires IsLimits(ToFields(Value(cursor, "limits")), c, l.limits) && CursorIsNamed(cursor, digest)
    requires name == CursorName(o, offset, size, l.limits, l.binding, digest)
    ensures IsCursor(cursor, o, c, offset, size, l, name)
  {
    CursorNamed(cursor, o, offset, size, l.limits, l.binding, digest);
    CursorNameNotEmpty(o, offset, size, l.limits, l.binding, digest);
    TextOf(Value(cursor, "identity"), name);
  }

  lemma CursorNameNotEmpty(o: Output, offset: nat, size: nat, limits: string, binding: string, digest: Digest)
    ensures CursorName(o, offset, size, limits, binding, digest) != ""
  {
    NotEmpty(Cursor, Hashed(
      [Words(Reference(o)), Words(o.sha256), Count(o.bytes), Words("text/plain; charset=utf-8"), Count(offset), Count(size),
       Words(limits)] + BindingParts(Some(binding)), digest), digest);
  }

  lemma BindingIsNamed(result: Fields, content: Fields, o: Output, binding: string, digest: Digest)
    requires BindingShape(result, digest) && content == ContentOf(result) && binding == BindingName(o, digest)
    requires HasSafeNumbers(o) && NamesOutput(result, content, o) && HasTotals(result, o)
    ensures Value(result, "binding_identity") == Text(binding)
    ensures CommandArtifactPageBindingIdentity(result, digest) == binding
  {
    BindingNamed(result, content, o, digest);
    TextOf(Value(result, "binding_identity"), binding);
  }

  lemma PageIsNamed(page: Fields, o: Output, c: Cut, p: Piece, l: Labels, digest: Digest)
    requires o.bytes <= MAXIMUM_CONTENT_BYTES && IsCut(c) && IsPiece(p, c, o)
    requires HasPageMembers(page, o, p, l.binding) && IsNamed(ToFields(Value(page, "limits")), l.limits)
    requires ToText(Value(page, "identity")) == ContentReferencePageIdentity(page, digest)
    requires if Value(page, "next_cursor").Object? then IsNamed(Value(page, "next_cursor").fields, l.next)
             else Value(page, "next_cursor") == Null && l.next == "none"
    requires l.page == PageName(o, p, l.limits, l.binding, l.next, digest)
    ensures IsNamed(page, l.page)
  {
    PageNamed(page, o, c, p, l.limits, l.binding, l.next, digest);
    PageNameNotEmpty(o, p, l.limits, l.binding, l.next, digest);
    TextOf(Value(page, "identity"), l.page);
  }

  lemma PageNameNotEmpty(o: Output, p: Piece, limits: string, binding: string, next: string, digest: Digest)
    ensures PageName(o, p, limits, binding, next, digest) != ""
  {
    NotEmpty(Page, Hashed(
      [Words(Reference(o)), Words(o.sha256), Count(o.bytes), Words("text/plain; charset=utf-8"), Count(p.offset),
       Count(p.size), Count(|Utf8(p.text)|), DigestOf(p.text), Flag(false), Words(limits)]
      + BindingParts(Some(binding)) + [Words(next)], digest), digest);
  }

  lemma NextMembers(result: Fields, page: Fields, content: Fields, o: Output, p: Piece, binding: string)
    requires NextCursorForm(result) && page == PageOf(result) && content == ContentOf(result)
    requires o.bytes <= MAXIMUM_CONTENT_BYTES && o.bytes == Number(content, "bytes")
    requires HasPageMembers(page, o, p, binding) && Value(result, "binding_identity") == Text(binding)
    requires End(p) <= o.bytes && (o.bytes > 0 ==> p.text != "")
    ensures if End(p) == o.bytes then Value(page, "next_cursor") == Null
            else && Value(page, "next_cursor").Object?
                 && var cursor := Value(page, "next_cursor").fields;
                    && CursorShape(cursor, content)
                    && Value(cursor, "bytes") == Integer(o.bytes) && Value(cursor, "offset") == Integer(End(p))
                    && Value(cursor, "page_size") == Integer(p.size)
                    && Value(cursor, "limits") == Value(page, "limits")
                    && Value(cursor, "binding_identity") == Text(binding)
  {
    assert Number(page, "offset") == p.offset && Number(page, "page_bytes") == |Utf8(p.text)|;
    assert Add64(p.offset, |Utf8(p.text)|) == End(p);
  }

  /** What the first part of the check settles: the output. */
  lemma OutputSettled(result: Fields, request: Fields, content: Fields, o: Output)
    requires RequestShape(request) && ResultShape(result, request) && Totals(result) && ContentShape(result, request)
    requires o == OutputOf(result) && content == ContentOf(result)
    ensures IsOutput(o) && o.bytes <= MAXIMUM_CONTENT_BYTES && AsksAbout(request, o)
    ensures HasResultMembers(result, o) && HasTotals(result, o) && IsContent(content, o)
  {
    ResultMembers(result, request, o);
    TotalMembers(result, o);
    MarkerIsShort(o.omitted);
    OmissionSize(o.omitted);
    ContentMembers(result, request, content, o, MarkerBytes(o.omitted));
    TextOf(Value(request, "reference"), Reference(o));
  }

  lemma ResultSettled(result: Fields, request: Fields, content: Fields, o: Output, binding: string, digest: Digest)
    requires ResultShape(result, request) && BindingShape(result, digest) && binding == BindingName(o, digest)
    requires HasSafeNumbers(o) && HasResultMembers(result, o) && HasTotals(result, o)
    requires content == ContentOf(result) && Names(content, o)
    ensures IsResult(result, o, binding) && CommandArtifactPageBindingIdentity(result, digest) == binding
  {
    BindingIsNamed(result, content, o, binding, digest);
  }

  lemma PreviewSettled(result: Fields, content: Fields, preview: Fields, o: Output, s: Shown, name: string, digest: Digest)
    requires PreviewShape(result, digest) && content == ContentOf(result) && HasContentMembers(content, o)
    requires o.bytes <= MAXIMUM_CONTENT_BYTES && IsLowerHexSha256(o.sha256)
    requires preview == PreviewOf(result) && s == ShownOf(preview) && name == PreviewName(o, s, digest)
    ensures IsPreview(preview, o, s, name) && IsShown(s, o)
  {
    PreviewMembers(result, content, preview, o, s);
    PreviewIsNamed(preview, o, s, name, digest);
  }

  lemma PlaceSettled(
      result: Fields, content: Fields, page: Fields, limits: Fields, o: Output, c: Cut, p: Piece, binding: string)
    requires PageShape(result) && PagePlace(result) && page == PageOf(result) && p == PieceOf(page)
    requires content == ContentOf(result) && HasContentMembers(content, o)
    requires o.bytes <= MAXIMUM_CONTENT_BYTES && IsLowerHexSha256(o.sha256)
    requires Value(result, "binding_identity") == Text(binding) && limits == LimitsOf(result) && c == CutOf(limits)
    ensures HasPageMembers(page, o, p, binding) && IsPiece(p, c, o)
  {
    PageMembers(result, content, page, o, p, binding);
    PiecePlaced(result, content, page, limits, o, c, p);
  }

  lemma NextSettled(
      result: Fields, content: Fields, page: Fields, o: Output, c: Cut, p: Piece, l: Labels, digest: Digest)
    requires NextCursorShape(result, digest) && page == PageOf(result) && content == ContentOf(result)
    requires o.bytes <= MAXIMUM_CONTENT_BYTES && IsLowerHexSha256(o.sha256) && HasContentMembers(content, o)
    requires HasPageMembers(page, o, p, l.binding) && Value(result, "binding_identity") == Text(l.binding)
    requires IsCut(c) && IsPiece(p, c, o) && IsLimits(ToFields(Value(page, "limits")), c, l.limits)
    requires End(p) == o.bytes || l.next == CursorName(o, End(p), p.size, l.limits, l.binding, digest)
    ensures IsNext(Value(page, "next_cursor"), o, c, p, l)
  {
    NextMembers(result, page, content, o, p, l.binding);
    if End(p) != o.bytes {
      var cursor := Value(page, "next_cursor").fields;
      CursorMembers(cursor, content, o, End(p), p.size, l.binding);
      CursorIsWhole(cursor, content, o, c, End(p), p.size, l, l.next, digest);
    }
  }

  lemma PageSettled(
      result: Fields, page: Fields, o: Output, c: Cut, p: Piece, l: Labels, digest: Digest)
    requires PageShape(result) && PageNumbers(result, digest) && page == PageOf(result)
    requires o.bytes <= MAXIMUM_CONTENT_BYTES && IsCut(c) && IsPiece(p, c, o) && HasPageMembers(page, o, p, l.binding)
    requires IsLimits(ToFields(Value(page, "limits")), c, l.limits) && IsNext(Value(page, "next_cursor"), o, c, p, l)
    requires l.page == PageName(o, p, l.limits, l.binding, l.next, digest) && (End(p) == o.bytes ==> l.next == "none")
    ensures IsPage(page, o, c, p, l)
  {
    PageIsNamed(page, o, c, p, l, digest);
  }

  lemma FirstSettled(result: Fields, request: Fields, page: Fields, limits: Fields, o: Output, c: Cut, p: Piece, l: Labels)
    requires RequestShape(request) && !IsContinuation(request) && FirstPageShape(result, request) && AsksAbout(request, o)
    requires page == PageOf(result) && p == PieceOf(page) && limits == LimitsOf(result) && c == CutOf(limits)
    ensures IsRequest(request, o, c, p, l, AskedBy(request))
  {
    NumberOf(request, "limit");
    NumberOf(request, "max_total_inline_bytes");
  }

  lemma ContinuationSettled(
      result: Fields, request: Fields, content: Fields, page: Fields, o: Output, c: Cut, p: Piece, l: Labels, digest: Digest)
    requires RequestShape(request) && IsContinuation(request) && ContinuationShape(result, request, digest)
    requires AsksAbout(request, o) && content == ContentOf(result) && HasContentMembers(content, o)
    requires page == PageOf(result) && HasPageMembers(page, o, p, l.binding)
    requires o.bytes <= MAXIMUM_CONTENT_BYTES && IsLowerHexSha256(o.sha256) && IsCut(c) && IsPiece(p, c, o)
    requires IsLimits(ToFields(Value(page, "limits")), c, l.limits)
    requires CommandArtifactPageBindingIdentity(result, digest) == l.binding && l.binding != ""
    requires l.here == CursorName(o, p.offset, p.size, l.limits, l.binding, digest)
    ensures IsRequest(request, o, c, p, l, AskedBy(request))
  {
    var cursor := Value(request, "cursor").fields;
    TextOf(Value(cursor, "binding_identity"), l.binding);
    CursorMembers(cursor, content, o, p.offset, p.size, l.binding);
    CursorIsWhole(cursor, content, o, c, p.offset, p.size, l, l.here, digest);
  }

  predicate ServesOutput(result: Fields, o: Output, s: Shown, l: Labels) {
    && IsOutput(o) && IsShown(s, o) && IsResult(result, o, l.binding) && IsContent(ContentOf(result), o)
    && IsPreview(PreviewOf(result), o, s, l.preview)
  }

  lemma AcceptedServesOutput(result: Fields, request: Fields, o: Output, s: Shown, l: Labels, digest: Digest)
    requires AboutOutput(result, request, digest)
    requires o == OutputOf(result) && s == ShownOf(PreviewOf(result))
    requires l.binding == BindingName(o, digest) && l.preview == PreviewName(o, s, digest)
    ensures ServesOutput(result, o, s, l)
    ensures AsksAbout(request, o) && o.bytes <= MAXIMUM_CONTENT_BYTES
    ensures CommandArtifactPageBindingIdentity(result, digest) == l.binding
  {
    var content := ContentOf(result);
    OutputSettled(result, request, content, o);
    ResultSettled(result, request, content, o, l.binding, digest);
    PreviewSettled(result, content, PreviewOf(result), o, s, l.preview, digest);
  }

  lemma AcceptedServesPage(result: Fields, o: Output, c: Cut, p: Piece, l: Labels, digest: Digest)
    requires OnPage(result, digest) && LimitsShape(LimitsOf(result), digest)
    requires c == CutOf(LimitsOf(result)) && p == PieceOf(PageOf(result)) && l.limits == LimitsName(c, digest)
    requires HasContentMembers(ContentOf(result), o) && IsLowerHexSha256(o.sha256) && o.bytes <= MAXIMUM_CONTENT_BYTES
    requires Value(result, "binding_identity") == Text(l.binding)
    requires l.next == if End(p) == o.bytes then "none" else CursorName(o, End(p), p.size, l.limits, l.binding, digest)
    requires l.page == PageName(o, p, l.limits, l.binding, l.next, digest)
    ensures IsCut(c) && IsPiece(p, c, o) && IsPage(PageOf(result), o, c, p, l)
  {
    var content, page, limits := ContentOf(result), PageOf(result), LimitsOf(result);
    LimitsMembers(limits, c, digest);
    LimitsAreNamed(limits, c, l.limits, digest);
    PlaceSettled(result, content, page, limits, o, c, p, l.binding);
    NextSettled(result, content, page, o, c, p, l, digest);
    PageSettled(result, page, o, c, p, l, digest);
  }

  lemma AcceptedAsks(result: Fields, request: Fields, o: Output, c: Cut, p: Piece, l: Labels, digest: Digest)
    requires RequestShape(request) && AboutPage(result, request, digest) && AsksAbout(request, o)
    requires HasContentMembers(ContentOf(result), o) && IsLowerHexSha256(o.sha256) && o.bytes <= MAXIMUM_CONTENT_BYTES
    requires c == CutOf(LimitsOf(result)) && p == PieceOf(PageOf(result))
    requires IsCut(c) && IsPiece(p, c, o) && IsPage(PageOf(result), o, c, p, l)
    requires CommandArtifactPageBindingIdentity(result, digest) == l.binding && l.binding != ""
    requires l.here == CursorName(o, p.offset, p.size, l.limits, l.binding, digest)
    ensures IsRequest(request, o, c, p, l, AskedBy(request))
  {
    if IsContinuation(request) {
      ContinuationSettled(result, request, ContentOf(result), PageOf(result), o, c, p, l, digest);
    } else {
      FirstSettled(result, request, PageOf(result), LimitsOf(result), o, c, p, l);
    }
  }

  lemma BindingNameNotEmpty(o: Output, digest: Digest)
    ensures BindingName(o, digest) != ""
  {
    NotEmpty(Binding, Hashed(BindingPartsOf(o), digest), digest);
  }

  lemma IntoHalves(result: Fields, request: Fields, digest: Digest)
    requires IsValidCommandArtifactPage(result, request, digest)
    ensures AboutOutput(result, request, digest) && AboutPage(result, request, digest)
  {
  }

  lemma HalvesServe(result: Fields, request: Fields, o: Output, s: Shown, c: Cut, p: Piece, l: Labels, digest: Digest)
    requires AboutOutput(result, request, digest) && AboutPage(result, request, digest)
    requires o == OutputOf(result) && s == ShownOf(PreviewOf(result))
    requires c == CutOf(LimitsOf(result)) && p == PieceOf(PageOf(result)) && SpellsOut(l, o, s, c, p, digest)
    ensures ServesOutput(result, o, s, l) && IsCut(c) && IsPiece(p, c, o) && IsPage(PageOf(result), o, c, p, l)
    ensures IsRequest(request, o, c, p, l, AskedBy(request))
  {
    AcceptedServesOutput(result, request, o, s, l, digest);
    AcceptedServesPage(result, o, c, p, l, digest);
    BindingNameNotEmpty(o, digest);
    AcceptedAsks(result, request, o, c, p, l, digest);
  }

  /** Whatever is accepted is served: the output, the cut and the page are read off the result itself. */
  lemma AcceptedIsServed(result: Fields, request: Fields, o: Output, s: Shown, c: Cut, p: Piece, l: Labels, digest: Digest)
    requires IsValidCommandArtifactPage(result, request, digest)
    requires o == OutputOf(result) && s == ShownOf(PreviewOf(result))
    requires c == CutOf(LimitsOf(result)) && p == PieceOf(PageOf(result)) && SpellsOut(l, o, s, c, p, digest)
    ensures Serves(result, o, s, c, p, l) && IsRequest(request, o, c, p, l, AskedBy(request))
  {
    IntoHalves(result, request, digest);
    HalvesServe(result, request, o, s, c, p, l, digest);
  }

  // ---------------------------------------------------------------------
  // Exactly what is served is accepted

  function LabelsOf(o: Output, s: Shown, c: Cut, p: Piece, digest: Digest): Labels {
    var limits, binding := LimitsName(c, digest), BindingName(o, digest);
    var next := if End(p) == o.bytes then "none" else CursorName(o, End(p), p.size, limits, binding, digest);
    Labels(limits, binding, PreviewName(o, s, digest), CursorName(o, p.offset, p.size, limits, binding, digest), next,
           PageName(o, p, limits, binding, next, digest))
  }

  lemma LabelsExist(o: Output, s: Shown, c: Cut, p: Piece, digest: Digest)
    ensures SpellsOut(LabelsOf(o, s, c, p, digest), o, s, c, p, digest)
  {
  }

  /** The mention of labels at which their names are spelled out in a proof. */
  predicate IsSpelled(l: Labels) {
    true
  }

  /** The labels are the names that go with the page; proofs see which only where they ask for it. */
  ghost predicate AreLabels(l: Labels, o: Output, s: Shown, c: Cut, p: Piece, digest: Digest) {
    forall m: Labels {:trigger IsSpelled(m)} | IsSpelled(m) && m == l :: SpellsOut(m, o, s, c, p, digest)
  }

  lemma LabelsSpelled(l: Labels, o: Output, s: Shown, c: Cut, p: Piece, digest: Digest)
    ensures AreLabels(l, o, s, c, p, digest) <==> SpellsOut(l, o, s, c, p, digest)
  {
    assert IsSpelled(l);
  }

  lemma LabelsFound(o: Output, s: Shown, c: Cut, p: Piece, digest: Digest) returns (l: Labels)
    ensures AreLabels(l, o, s, c, p, digest)
  {
    l := LabelsOf(o, s, c, p, digest);
    LabelsExist(o, s, c, p, digest);
    LabelsSpelled(l, o, s, c, p, digest);
  }

  /** The result answers the request with the page `p` of the output. */
  ghost predicate Answers(
      result: Fields, request: Fields, o: Output, s: Shown, c: Cut, p: Piece, l: Labels, asked: Asked, digest: Digest)
  {
    AreLabels(l, o, s, c, p, digest) && Serves(result, o, s, c, p, l) && IsRequest(request, o, c, p, l, asked)
  }

  ghost predicate IsServed(result: Fields, request: Fields, digest: Digest) {
    exists o, s, c, p, l, asked :: Answers(result, request, o, s, c, p, l, asked, digest)
  }

  lemma AcceptedAnswers(result: Fields, request: Fields, o: Output, s: Shown, c: Cut, p: Piece, l: Labels, digest: Digest)
    requires IsValidCommandArtifactPage(result, request, digest)
    requires o == OutputOf(result) && s == ShownOf(PreviewOf(result))
    requires c == CutOf(LimitsOf(result)) && p == PieceOf(PageOf(result)) && SpellsOut(l, o, s, c, p, digest)
    ensures Answers(result, request, o, s, c, p, l, AskedBy(request), digest)
  {
    LabelsSpelled(l, o, s, c, p, digest);
    AcceptedIsServed(result, request, o, s, c, p, l, digest);
  }

  lemma AcceptedServedAs(result: Fields, request: Fields, o: Output, s: Shown, c: Cut, p: Piece, digest: Digest)
    requires IsValidCommandArtifactPage(result, request, digest)
    requires o == OutputOf(result) && s == ShownOf(PreviewOf(result))
    requires c == CutOf(LimitsOf(result)) && p == PieceOf(PageOf(result))
    ensures IsServed(result, request, digest)
  {
    LabelsExist(o, s, c, p, digest);
    AcceptedAnswers(result, request, o, s, c, p, LabelsOf(o, s, c, p, digest), digest);
  }

  lemma AcceptedServed(result: Fields, request: Fields, digest: Digest)
    requires IsValidCommandArtifactPage(result, request, digest)
    ensures IsServed(result, request, digest)
  {
    AcceptedServedAs(result, request, OutputOf(result), ShownOf(PreviewOf(result)), CutOf(LimitsOf(result)),
                     PieceOf(PageOf(result)), digest);
  }

  lemma AnswerIsAccepted(
      result: Fields, request: Fields, o: Output, s: Shown, c: Cut, p: Piece, l: Labels, asked: Asked, digest: Digest)
    requires IsSha256(digest) && Answers(result, request, o, s, c, p, l, asked, digest)
    ensures IsValidCommandArtifactPage(result, request, digest)
  {
    LabelsSpelled(l, o, s, c, p, digest);
    ServedIsAccepted(result, request, o, s, c, p, l, asked, digest);
  }

  lemma ServedAccepted(result: Fields, request: Fields, digest: Digest)
    requires IsSha256(digest) && IsServed(result, request, digest)
    ensures IsValidCommandArtifactPage(result, request, digest)
  {
    forall o, s, c, p, l, asked | Answers(result, request, o, s, c, p, l, asked, digest)
      ensures IsValidCommandArtifactPage(result, request, digest)
    {
      AnswerIsAccepted(result, request, o, s, c, p, l, asked, digest);
    }
  }

  lemma AcceptedExactlyServed(result: Fields, request: Fields, digest: Digest)
    requires IsSha256(digest)
    ensures IsValidCommandArtifactPage(result, request, digest) <==> IsServed(result, request, digest)
  {
    if IsValidCommandArtifactPage(result, request, digest) {
      AcceptedServed(result, request, digest);
    }
    if IsServed(result, request, digest) {
      ServedAccepted(result, request, digest);
    }
  }

  /** An accepted preview says truly whether it is the whole content. */
  lemma PreviewIsTruthful(result: Fields, request: Fields, digest: Digest)
    requires IsValidCommandArtifactPage(result, request, digest)
    ensures var content, preview := ContentOf(result), PreviewOf(result);
            && Value(content, "bytes").Integer? && Value(preview, "content_bytes") == Value(content, "bytes")
            && Value(preview, "preview_bytes").Integer? && Value(preview, "truncated").Boolean?
            && (Value(preview, "truncated").value <==> Value(preview, "preview_bytes").n < Value(content, "bytes").n)
  {
    var o := OutputOf(result);
    IntoHalves(result, request, digest);
    OutputSettled(result, request, ContentOf(result), o);
    PreviewMembers(result, ContentOf(result), PreviewOf(result), o, ShownOf(PreviewOf(result)));
  }
}
