// A runtime that cuts any recorded output by the limits asked for: its pages exist, form a
// chain from the first request to the end, and are accepted one by one.

module CommandCuts {
  import opened Options
  import opened Bytes
  import opened Json
  import opened Identities
  import opened IdentityLayouts
  import opened CommandPages
  import opened CommandServer

  // ---------------------------------------------------------------------
  // Objects

  /** Names and values in parallel. */
  function Zip(names: seq<string>, values: seq<Json>): (r: seq<(string, Json)>)
    requires |names| == |values|
    ensures |r| == |names|
  {
    seq(|names|, i requires 0 <= i < |names| => (names[i], values[i]))
  }

  predicate Different(names: seq<string>) {
    forall i, j | 0 <= i < j < |names| :: names[i] != names[j]
  }

  function Made(names: seq<string>, values: seq<Json>): Fields
    requires |names| == |values|
  {
    ObjectOf(Zip(names, values))
  }

  lemma MadeAt(names: seq<string>, values: seq<Json>, i: nat)
    requires |names| == |values| && Different(names) && i < |names|
    ensures Value(Made(names, values), names[i]) == values[i]
  {
    MemberAt(Zip(names, values), i);
  }

  lemma MadeKeys(names: seq<string>, values: seq<Json>, keys: set<string>)
    requires |names| == |values| && Different(names)
    requires forall key :: key in keys <==> key in names
    ensures Made(names, values).Keys == keys
  {
    NamesAreKeys(Zip(names, values));
    forall key
      ensures key in Made(names, values) <==> key in keys
    {
      if key in names {
        var i :| 0 <= i < |names| && names[i] == key;
        assert Zip(names, values)[i].0 == key;
      }
    }
  }

  const LIMITS_NAMES: seq<string> :=
    ["schema_version", "max_item_bytes", "max_total_bytes", "identity"]

  lemma LimitsNamesDiffer()
    ensures Different(LIMITS_NAMES)
  {
  }

  function MadeLimits(c: Cut, name: string): Fields {
    Made(LIMITS_NAMES,
         [Text("content-inline-limits/0.1"), Integer(c.item), Integer(c.total), Text(name)])
  }

  lemma LimitsMade(c: Cut, name: string, made: Fields)
    requires made == MadeLimits(c, name)
    ensures made.Keys
         == {"schema_version", "max_item_bytes", "max_total_bytes", "identity"}
    ensures Value(made, "schema_version") == Text("content-inline-limits/0.1")
    ensures Value(made, "max_item_bytes") == Integer(c.item)
    ensures Value(made, "max_total_bytes") == Integer(c.total)
    ensures Value(made, "identity") == Text(name)
  {
    var values :=
      [Text("content-inline-limits/0.1"), Integer(c.item), Integer(c.total), Text(name)];
    LimitsNamesDiffer();
    MadeKeys(LIMITS_NAMES, values,
             {"schema_version", "max_item_bytes", "max_total_bytes", "identity"});
    MadeAt(LIMITS_NAMES, values, 0);
    MadeAt(LIMITS_NAMES, values, 1);
    MadeAt(LIMITS_NAMES, values, 2);
    MadeAt(LIMITS_NAMES, values, 3);
  }

  const PREVIEW_NAMES: seq<string> :=
    ["schema_version", "identity", "reference", "sha256", "media_type", "content_bytes", "preview_bytes",
     "truncated", "line_count", "width", "height"]

  lemma PreviewNamesDiffer()
    ensures Different(PREVIEW_NAMES)
  {
  }

  function MadePreview(o: Output, s: Shown, name: string): Fields {
    Made(PREVIEW_NAMES,
         [Text("content-preview/0.1"), Text(name), Text(Reference(o)), Text(o.sha256),
          Text("text/plain; charset=utf-8"), Integer(o.bytes), Integer(s.bytes), Boolean(s.bytes < o.bytes),
          Integer(s.lines), Null, Null])
  }

  lemma PreviewMade(o: Output, s: Shown, name: string, made: Fields)
    requires made == MadePreview(o, s, name)
    ensures made.Keys
         == {"schema_version", "identity", "reference", "sha256", "media_type", "content_bytes",
             "preview_bytes", "truncated", "line_count", "width", "height"}
    ensures Value(made, "schema_version") == Text("content-preview/0.1")
    ensures Value(made, "identity") == Text(name)
    ensures Value(made, "reference") == Text(Reference(o))
    ensures Value(made, "sha256") == Text(o.sha256)
    ensures Value(made, "media_type") == Text("text/plain; charset=utf-8")
    ensures Value(made, "content_bytes") == Integer(o.bytes)
    ensures Value(made, "preview_bytes") == Integer(s.bytes)
    ensures Value(made, "truncated") == Boolean(s.bytes < o.bytes)
    ensures Value(made, "line_count") == Integer(s.lines)
    ensures Value(made, "width") == Null
    ensures Value(made, "height") == Null
  {
    var values :=
      [Text("content-preview/0.1"), Text(name), Text(Reference(o)), Text(o.sha256),
       Text("text/plain; charset=utf-8"), Integer(o.bytes), Integer(s.bytes), Boolean(s.bytes < o.bytes),
       Integer(s.lines), Null, Null];
    PreviewNamesDiffer();
    MadeKeys(PREVIEW_NAMES, values,
             {"schema_version", "identity", "reference", "sha256", "media_type", "content_bytes",
              "preview_bytes", "truncated", "line_count", "width", "height"});
    MadeAt(PREVIEW_NAMES, values, 0);
    MadeAt(PREVIEW_NAMES, values, 1);
    MadeAt(PREVIEW_NAMES, values, 2);
    MadeAt(PREVIEW_NAMES, values, 3);
    MadeAt(PREVIEW_NAMES, values, 4);
    MadeAt(PREVIEW_NAMES, values, 5);
    MadeAt(PREVIEW_NAMES, values, 6);
    MadeAt(PREVIEW_NAMES, values, 7);
    MadeAt(PREVIEW_NAMES, values, 8);
    MadeAt(PREVIEW_NAMES, values, 9);
    MadeAt(PREVIEW_NAMES, values, 10);
  }

  const CONTENT_NAMES: seq<string> :=
    ["schema_version", "reference", "sha256", "bytes", "media_type", "preview"]

  lemma ContentNamesDiffer()
    ensures Different(CONTENT_NAMES)
  {
  }

  function MadeContent(o: Output, preview: Fields): Fields {
    Made(CONTENT_NAMES,
         [Text("content-reference/0.1"), Text(Reference(o)), Text(o.sha256), Integer(o.bytes),
          Text("text/plain; charset=utf-8"), Object(preview)])
  }

  lemma ContentMade(o: Output, preview: Fields, made: Fields)
    requires made == MadeContent(o, preview)
    ensures made.Keys
         == {"schema_version", "reference", "sha256", "bytes", "media_type", "preview"}
    ensures Value(made, "schema_version") == Text("content-reference/0.1")
    ensures Value(made, "reference") == Text(Reference(o))
    ensures Value(made, "sha256") == Text(o.sha256)
    ensures Value(made, "bytes") == Integer(o.bytes)
    ensures Value(made, "media_type") == Text("text/plain; charset=utf-8")
    ensures Value(made, "preview") == Object(preview)
  {
    var values :=
      [Text("content-reference/0.1"), Text(Reference(o)), Text(o.sha256), Integer(o.bytes),
       Text("text/plain; charset=utf-8"), Object(preview)];
    ContentNamesDiffer();
    MadeKeys(CONTENT_NAMES, values,
             {"schema_version", "reference", "sha256", "bytes", "media_type", "preview"});
    MadeAt(CONTENT_NAMES, values, 0);
    MadeAt(CONTENT_NAMES, values, 1);
    MadeAt(CONTENT_NAMES, values, 2);
    MadeAt(CONTENT_NAMES, values, 3);
    MadeAt(CONTENT_NAMES, values, 4);
    MadeAt(CONTENT_NAMES, values, 5);
  }

  const CURSOR_NAMES: seq<string> :=
    ["schema_version", "reference", "sha256", "bytes", "media_type", "offset", "page_size", "limits",
     "binding_identity", "identity"]

  lemma CursorNamesDiffer()
    ensures Different(CURSOR_NAMES)
  {
  }

  function MadeCursor(o: Output, offset: nat, size: nat, limits: Fields, binding: string, name: string): Fields {
    Made(CURSOR_NAMES,
         [Text("content-reference-cursor/0.1"), Text(Reference(o)), Text(o.sha256), Integer(o.bytes),
          Text("text/plain; charset=utf-8"), Integer(offset), Integer(size), Object(limits), Text(binding),
          Text(name)])
  }

  lemma CursorMade(o: Output, offset: nat, size: nat, limits: Fields, binding: string, name: string, made: Fields)
    requires made == MadeCursor(o, offset, size, limits, binding, name)
    ensures made.Keys
         == {"schema_version", "reference", "sha256", "bytes", "media_type", "offset", "page_size", "limits",
             "binding_identity", "identity"}
    ensures Value(made, "schema_version") == Text("content-reference-cursor/0.1")
    ensures Value(made, "reference") == Text(Reference(o))
    ensures Value(made, "sha256") == Text(o.sha256)
    ensures Value(made, "bytes") == Integer(o.bytes)
    ensures Value(made, "media_type") == Text("text/plain; charset=utf-8")
    ensures Value(made, "offset") == Integer(offset)
    ensures Value(made, "page_size") == Integer(size)
    ensures Value(made, "limits") == Object(limits)
    ensures Value(made, "binding_identity") == Text(binding)
    ensures Value(made, "identity") == Text(name)
  {
    var values :=
      [Text("content-reference-cursor/0.1"), Text(Reference(o)), Text(o.sha256), Integer(o.bytes),
       Text("text/plain; charset=utf-8"), Integer(offset), Integer(size), Object(limits), Text(binding),
       Text(name)];
    CursorNamesDiffer();
    MadeKeys(CURSOR_NAMES, values,
             {"schema_version", "reference", "sha256", "bytes", "media_type", "offset", "page_size", "limits",
              "binding_identity", "identity"});
    MadeAt(CURSOR_NAMES, values, 0);
    MadeAt(CURSOR_NAMES, values, 1);
    MadeAt(CURSOR_NAMES, values, 2);
    MadeAt(CURSOR_NAMES, values, 3);
    MadeAt(CURSOR_NAMES, values, 4);
    MadeAt(CURSOR_NAMES, values, 5);
    MadeAt(CURSOR_NAMES, values, 6);
    MadeAt(CURSOR_NAMES, values, 7);
    MadeAt(CURSOR_NAMES, values, 8);
    MadeAt(CURSOR_NAMES, values, 9);
  }

  const PAGE_NAMES: seq<string> :=
    ["schema_version", "reference", "sha256", "bytes", "media_type", "offset", "page_size", "page_bytes",
     "inline", "inline_truncated", "limits", "binding_identity", "next_cursor", "identity"]

  lemma PageNamesDiffer()
    ensures Different(PAGE_NAMES)
  {
  }

  function MadePage(o: Output, p: Piece, limits: Fields, binding: string, next: Json, name: string): Fields {
    Made(PAGE_NAMES,
         [Text("content-reference-page/0.1"), Text(Reference(o)), Text(o.sha256), Integer(o.bytes),
          Text("text/plain; charset=utf-8"), Integer(p.offset), Integer(p.size), Integer(|Utf8(p.text)|),
          Text(p.text), Boolean(false), Object(limits), Text(binding), next, Text(name)])
  }

  lemma PageMade(o: Output, p: Piece, limits: Fields, binding: string, next: Json, name: string, made: Fields)
    requires made == MadePage(o, p, limits, binding, next, name)
    ensures made.Keys
         == {"schema_version", "reference", "sha256", "bytes", "media_type", "offset", "page_size",
             "page_bytes", "inline", "inline_truncated", "limits", "binding_identity", "next_cursor",
             "identity"}
    ensures Value(made, "schema_version") == Text("content-reference-page/0.1")
    ensures Value(made, "reference") == Text(Reference(o))
    ensures Value(made, "sha256") == Text(o.sha256)
    ensures Value(made, "bytes") == Integer(o.bytes)
    ensures Value(made, "media_type") == Text("text/plain; charset=utf-8")
    ensures Value(made, "offset") == Integer(p.offset)
    ensures Value(made, "page_size") == Integer(p.size)
    ensures Value(made, "page_bytes") == Integer(|Utf8(p.text)|)
    ensures Value(made, "inline") == Text(p.text)
    ensures Value(made, "inline_truncated") == Boolean(false)
    ensures Value(made, "limits") == Object(limits)
    ensures Value(made, "binding_identity") == Text(binding)
    ensures Value(made, "next_cursor") == next
    ensures Value(made, "identity") == Text(name)
  {
    var values :=
      [Text("content-reference-page/0.1"), Text(Reference(o)), Text(o.sha256), Integer(o.bytes),
       Text("text/plain; charset=utf-8"), Integer(p.offset), Integer(p.size), Integer(|Utf8(p.text)|),
       Text(p.text), Boolean(false), Object(limits), Text(binding), next, Text(name)];
    PageNamesDiffer();
    MadeKeys(PAGE_NAMES, values,
             {"schema_version", "reference", "sha256", "bytes", "media_type", "offset", "page_size",
              "page_bytes", "inline", "inline_truncated", "limits", "binding_identity", "next_cursor",
              "identity"});
    MadeAt(PAGE_NAMES, values, 0);
    MadeAt(PAGE_NAMES, values, 1);
    MadeAt(PAGE_NAMES, values, 2);
    MadeAt(PAGE_NAMES, values, 3);
    MadeAt(PAGE_NAMES, values, 4);
    MadeAt(PAGE_NAMES, values, 5);
    MadeAt(PAGE_NAMES, values, 6);
    MadeAt(PAGE_NAMES, values, 7);
    MadeAt(PAGE_NAMES, values, 8);
    MadeAt(PAGE_NAMES, values, 9);
    MadeAt(PAGE_NAMES, values, 10);
    MadeAt(PAGE_NAMES, values, 11);
    MadeAt(PAGE_NAMES, values, 12);
    MadeAt(PAGE_NAMES, values, 13);
  }

  const RESULT_NAMES: seq<string> :=
    ["schema_version", "session_id", "item_id", "binding_identity", "created_at_ms", "content_reference",
     "page", "source_bytes", "redacted_count", "redacted", "total_bytes", "retained_bytes", "omitted_bytes",
     "truncated", "read_only"]

  lemma ResultNamesDiffer()
    ensures Different(RESULT_NAMES)
  {
  }

  function ResultValues(o: Output, binding: string, content: Fields, page: Fields): (r: seq<Json>)
    ensures |r| == |RESULT_NAMES|
  {
    [Text("command-output-artifact-page/0.1"), Text(o.session), Text(o.item), Text(binding), Integer(o.created),
     Object(content), Object(page), Integer(o.source), Integer(o.redactions), Boolean(o.redactions > 0),
     Integer(o.retained + o.omitted), Integer(o.retained), Integer(o.omitted), Boolean(o.omitted > 0), Boolean(true)]
  }

  function MadeResult(o: Output, binding: string, content: Fields, page: Fields): Fields {
    Made(RESULT_NAMES, ResultValues(o, binding, content, page))
  }

  lemma ResultKeys(key: string, keys: set<string>)
    requires keys
          == {"schema_version", "session_id", "item_id", "binding_identity", "created_at_ms", "content_reference", "page",
             "source_bytes", "redacted_count", "redacted", "total_bytes", "retained_bytes", "omitted_bytes", "truncated",
             "read_only"}
    ensures key in keys <==> key in RESULT_NAMES
  {
  }

  lemma ResultKeysMade(values: seq<Json>, keys: set<string>)
    requires |values| == |RESULT_NAMES|
    requires forall key :: key in keys <==> key in RESULT_NAMES
    ensures Made(RESULT_NAMES, values).Keys == keys
  {
    ResultNamesDiffer();
    MadeKeys(RESULT_NAMES, values, keys);
  }

  lemma ResultAbout(values: seq<Json>, made: Fields)
    requires |values| == |RESULT_NAMES| && made == Made(RESULT_NAMES, values)
    ensures Value(made, "schema_version") == values[0]
    ensures Value(made, "session_id") == values[1]
    ensures Value(made, "item_id") == values[2]
    ensures Value(made, "binding_identity") == values[3]
    ensures Value(made, "created_at_ms") == values[4]
    ensures Value(made, "content_reference") == values[5]
    ensures Value(made, "page") == values[6]
  {
    ResultNamesDiffer();
    MadeAt(RESULT_NAMES, values, 0);
    MadeAt(RESULT_NAMES, values, 1);
    MadeAt(RESULT_NAMES, values, 2);
    MadeAt(RESULT_NAMES, values, 3);
    MadeAt(RESULT_NAMES, values, 4);
    MadeAt(RESULT_NAMES, values, 5);
    MadeAt(RESULT_NAMES, values, 6);
  }

  lemma ResultTotals(values: seq<Json>, made: Fields)
    requires |values| == |RESULT_NAMES| && made == Made(RESULT_NAMES, values)
    ensures Value(made, "source_bytes") == values[7]
    ensures Value(made, "redacted_count") == values[8]
    ensures Value(made, "redacted") == values[9]
    ensures Value(made, "total_bytes") == values[10]
    ensures Value(made, "retained_bytes") == values[11]
    ensures Value(made, "omitted_bytes") == values[12]
    ensures Value(made, "truncated") == values[13]
    ensures Value(made, "read_only") == values[14]
  {
    ResultNamesDiffer();
    MadeAt(RESULT_NAMES, values, 7);
    MadeAt(RESULT_NAMES, values, 8);
    MadeAt(RESULT_NAMES, values, 9);
    MadeAt(RESULT_NAMES, values, 10);
    MadeAt(RESULT_NAMES, values, 11);
    MadeAt(RESULT_NAMES, values, 12);
    MadeAt(RESULT_NAMES, values, 13);
    MadeAt(RESULT_NAMES, values, 14);
  }

  const FIRST_NAMES: seq<string> :=
    ["session_id", "item_id", "reference", "limit", "max_total_inline_bytes"]

  lemma FirstRequestNamesDiffer()
    ensures Different(FIRST_NAMES)
  {
  }

  function MadeFirstRequest(o: Output, limit: nat, total: nat): Fields {
    Made(FIRST_NAMES,
         [Text(o.session), Text(o.item), Text(Reference(o)), Integer(limit), Integer(total)])
  }

  lemma FirstRequestMade(o: Output, limit: nat, total: nat, made: Fields)
    requires made == MadeFirstRequest(o, limit, total)
    ensures made.Keys
         == {"session_id", "item_id", "reference", "limit", "max_total_inline_bytes"}
    ensures Value(made, "session_id") == Text(o.session)
    ensures Value(made, "item_id") == Text(o.item)
    ensures Value(made, "reference") == Text(Reference(o))
    ensures Value(made, "limit") == Integer(limit)
    ensures Value(made, "max_total_inline_bytes") == Integer(total)
  {
    var values :=
      [Text(o.session), Text(o.item), Text(Reference(o)), Integer(limit), Integer(total)];
    FirstRequestNamesDiffer();
    MadeKeys(FIRST_NAMES, values,
             {"session_id", "item_id", "reference", "limit", "max_total_inline_bytes"});
    MadeAt(FIRST_NAMES, values, 0);
    MadeAt(FIRST_NAMES, values, 1);
    MadeAt(FIRST_NAMES, values, 2);
    MadeAt(FIRST_NAMES, values, 3);
    MadeAt(FIRST_NAMES, values, 4);
  }

  const NEXT_NAMES: seq<string> :=
    ["session_id", "item_id", "reference", "cursor"]

  lemma NextRequestNamesDiffer()
    ensures Different(NEXT_NAMES)
  {
  }

  function MadeNextRequest(o: Output, cursor: Fields): Fields {
    Made(NEXT_NAMES,
         [Text(o.session), Text(o.item), Text(Reference(o)), Object(cursor)])
  }

  lemma NextRequestMade(o: Output, cursor: Fields, made: Fields)
    requires made == MadeNextRequest(o, cursor)
    ensures made.Keys
         == {"session_id", "item_id", "reference", "cursor"}
    ensures Value(made, "session_id") == Text(o.session)
    ensures Value(made, "item_id") == Text(o.item)
    ensures Value(made, "reference") == Text(Reference(o))
    ensures Value(made, "cursor") == Object(cursor)
  {
    var values :=
      [Text(o.session), Text(o.item), Text(Reference(o)), Object(cursor)];
    NextRequestNamesDiffer();
    MadeKeys(NEXT_NAMES, values,
             {"session_id", "item_id", "reference", "cursor"});
    MadeAt(NEXT_NAMES, values, 0);
    MadeAt(NEXT_NAMES, values, 1);
    MadeAt(NEXT_NAMES, values, 2);
    MadeAt(NEXT_NAMES, values, 3);
  }

  // ---------------------------------------------------------------------
  // The page and the requests for it

  lemma CursorIsMade(o: Output, c: Cut, offset: nat, size: nat, l: Labels, name: string, made: Fields)
    requires made == MadeCursor(o, offset, size, MadeLimits(c, l.limits), l.binding, name)
    ensures IsCursor(made, o, c, offset, size, l, name)
  {
    var limits := MadeLimits(c, l.limits);
    LimitsMade(c, l.limits, limits);
    CursorMade(o, offset, size, limits, l.binding, name, made);
  }

  /** The cursor to the rest, or null at the end. */
  function MadeNext(o: Output, c: Cut, p: Piece, l: Labels): Json {
    if End(p) == o.bytes then Null
    else Object(MadeCursor(o, End(p), p.size, MadeLimits(c, l.limits), l.binding, l.next))
  }

  lemma NextIsMade(o: Output, c: Cut, p: Piece, l: Labels)
    ensures IsNext(MadeNext(o, c, p, l), o, c, p, l)
  {
    if End(p) != o.bytes {
      CursorIsMade(o, c, End(p), p.size, l, l.next, MadeNext(o, c, p, l).fields);
    }
  }

  lemma PageMembersMade(o: Output, p: Piece, limits: Fields, binding: string, next: Json, name: string, made: Fields)
    requires made == MadePage(o, p, limits, binding, next, name)
    ensures HasPageMembers(made, o, p, binding) && IsNamed(made, name)
    ensures Value(made, "limits") == Object(limits) && Value(made, "next_cursor") == next
  {
    PageMade(o, p, limits, binding, next, name, made);
  }

  lemma PageIsMade(o: Output, c: Cut, p: Piece, l: Labels, limits: Fields, next: Json, made: Fields)
    requires IsLimits(limits, c, l.limits) && IsNext(next, o, c, p, l)
    requires made == MadePage(o, p, limits, l.binding, next, l.page)
    ensures IsPage(made, o, c, p, l)
  {
    PageMade(o, p, limits, l.binding, next, l.page, made);
    PageMembersMade(o, p, limits, l.binding, next, l.page, made);
  }

  function ServedPage(o: Output, c: Cut, p: Piece, l: Labels): Fields {
    MadePage(o, p, MadeLimits(c, l.limits), l.binding, MadeNext(o, c, p, l), l.page)
  }

  function ServedContent(o: Output, s: Shown, l: Labels): Fields {
    MadeContent(o, MadePreview(o, s, l.preview))
  }

  /** The result for the page `p` of an output. */
  function ServedResult(o: Output, s: Shown, c: Cut, p: Piece, l: Labels): Fields {
    MadeResult(o, l.binding, ServedContent(o, s, l), ServedPage(o, c, p, l))
  }

  lemma ResultIsMade(o: Output, binding: string, content: Fields, page: Fields, made: Fields)
    requires made == MadeResult(o, binding, content, page)
    ensures IsResult(made, o, binding) && ContentOf(made) == content && PageOf(made) == page
  {
    var values := ResultValues(o, binding, content, page);
    var keys :=
      {"schema_version", "session_id", "item_id", "binding_identity", "created_at_ms", "content_reference", "page",
       "source_bytes", "redacted_count", "redacted", "total_bytes", "retained_bytes", "omitted_bytes", "truncated",
       "read_only"};
    forall key
      ensures key in keys <==> key in RESULT_NAMES
    {
      ResultKeys(key, keys);
    }
    ResultKeysMade(values, keys);
    ResultAbout(values, made);
    ResultTotals(values, made);
  }

  lemma ResultServes(o: Output, s: Shown, c: Cut, p: Piece, l: Labels, preview: Fields, content: Fields, page: Fields, made: Fields)
    requires IsOutput(o) && IsShown(s, o) && IsCut(c) && IsPiece(p, c, o)
    requires IsPreview(preview, o, s, l.preview) && IsContent(content, o) && Value(content, "preview") == Object(preview)
    requires IsPage(page, o, c, p, l)
    requires IsResult(made, o, l.binding) && ContentOf(made) == content && PageOf(made) == page
    ensures Serves(made, o, s, c, p, l)
  {
  }

  lemma ResultIsServed(o: Output, s: Shown, c: Cut, p: Piece, l: Labels)
    requires IsOutput(o) && IsShown(s, o) && IsCut(c) && IsPiece(p, c, o)
    ensures Serves(ServedResult(o, s, c, p, l), o, s, c, p, l)
    ensures PageOf(ServedResult(o, s, c, p, l)) == ServedPage(o, c, p, l)
  {
    var preview := MadePreview(o, s, l.preview);
    var content, page := ServedContent(o, s, l), ServedPage(o, c, p, l);
    var made := ServedResult(o, s, c, p, l);
    PreviewMade(o, s, l.preview, preview);
    ContentMade(o, preview, content);
    LimitsMade(c, l.limits, MadeLimits(c, l.limits));
    NextIsMade(o, c, p, l);
    PageIsMade(o, c, p, l, MadeLimits(c, l.limits), MadeNext(o, c, p, l), page);
    ResultIsMade(o, l.binding, content, page, made);
    ResultServes(o, s, c, p, l, preview, content, page, made);
  }

  // ---------------------------------------------------------------------
  // Cutting a text

  function Joined(pieces: seq<string>): string
    decreases |pieces|
  {
    if pieces == [] then "" else Joined(pieces[..|pieces| - 1]) + pieces[|pieces| - 1]
  }

  /** Pieces of at most `size` bytes that make up the text; none is empty unless the text is. */
  predicate IsCutting(pieces: seq<string>, text: string, size: nat) {
    && pieces != [] && Joined(pieces) == text
    && (forall k | 0 <= k < |pieces| :: |Utf8(pieces[k])| <= size)
    && (if text == "" then |pieces| == 1 else forall k | 0 <= k < |pieces| :: pieces[k] != "")
  }

  predicate FitsInto(text: string, size: nat) {
    forall i | 0 <= i < |text| :: |Utf8Char(text[i])| <= size
  }

  /** The first characters that fit, as many as possible. */
  function Taken(text: string, size: nat): (n: nat)
    ensures n <= |text| && |Utf8(text[..n])| <= size
    decreases |text|
  {
    if text == "" || |Utf8Char(text[0])| > size then 0
    else
      var n := Taken(text[1..], size - |Utf8Char(text[0])|);
      assert text[..n + 1] == [text[0]] + text[1..][..n];
      assert text[..n + 1][1..] == text[1..][..n];
      n + 1
  }

  /** Page after page, each as long as it can be. */
  function Pages(text: string, size: nat): (pieces: seq<string>)
    requires FitsInto(text, size)
    decreases |text|
  {
    var n := Taken(text, size);
    if n == |text| then [text]
    else
      assert n > 0;
      [text[..n]] + Pages(text[n..], size)
  }

  lemma {:induction false} JoinedFirst(first: string, pieces: seq<string>)
    ensures Joined([first] + pieces) == first + Joined(pieces)
    decreases |pieces|
  {
    if pieces == [] {
      assert ([first] + pieces)[..0] == [];
    } else {
      var front, last := pieces[..|pieces| - 1], pieces[|pieces| - 1];
      JoinedFirst(first, front);
      assert ([first] + pieces)[..|pieces|] == [first] + front;
      assert first + (Joined(front) + last) == first + Joined(front) + last;
    }
  }

  lemma FirstPageCut(first: string, pieces: seq<string>, rest: string, text: string, size: nat)
    requires first != "" && rest != "" && text == first + rest && |Utf8(first)| <= size && IsCutting(pieces, rest, size)
    ensures IsCutting([first] + pieces, text, size)
  {
    JoinedFirst(first, pieces);
  }

  lemma {:induction false} PagesCut(text: string, size: nat)
    requires FitsInto(text, size)
    ensures IsCutting(Pages(text, size), text, size)
    decreases |text|
  {
    var n := Taken(text, size);
    if n == |text| {
      assert text[..n] == text && [text][..0] == [];
    } else {
      assert n > 0;
      PagesCut(text[n..], size);
      assert text == text[..n] + text[n..];
      FirstPageCut(text[..n], Pages(text[n..], size), text[n..], text, size);
    }
  }

  lemma {:induction false} PiecesFit(pieces: seq<string>, size: nat)
    requires forall k | 0 <= k < |pieces| :: |Utf8(pieces[k])| <= size
    ensures FitsInto(Joined(pieces), size)
    decreases |pieces|
  {
    if pieces != [] {
      PiecesFit(pieces[..|pieces| - 1], size);
      CharactersFit(pieces[|pieces| - 1], size);
    }
  }

  lemma {:induction false} CharactersFit(text: string, size: nat)
    requires |Utf8(text)| <= size
    ensures FitsInto(text, size)
    decreases |text|
  {
    if text != "" {
      CharactersFit(text[1..], size);
      assert forall i | 0 < i < |text| :: text[i] == text[1..][i - 1];
    }
  }

  /** A text can be cut into pages exactly when every single character fits into one. */
  lemma CuttingExists(text: string, size: nat)
    ensures (exists pieces :: IsCutting(pieces, text, size)) <==> FitsInto(text, size)
  {
    if FitsInto(text, size) {
      PagesCut(text, size);
    }
    forall pieces | IsCutting(pieces, text, size)
      ensures FitsInto(text, size)
    {
      PiecesFit(pieces, size);
    }
  }

  /** Four bytes are enough for any character. */
  lemma FourBytesSuffice(text: string, size: nat)
    requires size >= 4
    ensures FitsInto(text, size)
  {
  }

  /** Where a piece starts: behind the bytes of those before it. */
  function OffsetAt(pieces: seq<string>, k: nat): nat
    requires k <= |pieces|
  {
    if k == 0 then 0 else OffsetAt(pieces, k - 1) + |Utf8(pieces[k - 1])|
  }

  lemma {:induction false} OffsetIsSize(pieces: seq<string>, k: nat)
    requires k <= |pieces|
    ensures OffsetAt(pieces, k) == |Utf8(Joined(pieces[..k]))|
  {
    if k > 0 {
      OffsetIsSize(pieces, k - 1);
      assert pieces[..k][..k - 1] == pieces[..k - 1];
      Utf8Append(Joined(pieces[..k - 1]), pieces[k - 1]);
    }
  }

  lemma {:induction false} OffsetsGrow(pieces: seq<string>, i: nat, k: nat)
    requires i <= k <= |pieces|
    ensures OffsetAt(pieces, i) <= OffsetAt(pieces, k)
    decreases k
  {
    if i < k {
      OffsetsGrow(pieces, i, k - 1);
    }
  }

  lemma OffsetAtEnd(pieces: seq<string>)
    ensures OffsetAt(pieces, |pieces|) == |Utf8(Joined(pieces))|
  {
    OffsetIsSize(pieces, |pieces|);
    assert pieces[..|pieces|] == pieces;
  }

  // ---------------------------------------------------------------------
  // The chain of pages

  /** An output with its text, what the preview shows, the limits asked for, and the pieces the text is cut into. */
  datatype Plan = Plan(o: Output, s: Shown, text: string, limit: nat, total: nat, pieces: seq<string>)

  function CutBy(limit: nat, total: nat): Cut {
    Cut(CommandServer.Least(CommandServer.Least(limit, 65536), CommandServer.Least(total, 262144)),
        CommandServer.Least(total, 262144))
  }

  predicate IsPlan(plan: Plan) {
    && IsOutput(plan.o) && plan.o.bytes == |Utf8(plan.text)| && IsShown(plan.s, plan.o)
    && 0 < plan.limit <= 9007199254740991 && 0 < plan.total <= 9007199254740991
    && IsCutting(plan.pieces, plan.text, CutBy(plan.limit, plan.total).item)
  }

  function PieceAt(plan: Plan, k: nat): Piece
    requires k < |plan.pieces|
  {
    Piece(OffsetAt(plan.pieces, k), CutBy(plan.limit, plan.total).item, plan.pieces[k])
  }

  lemma PiecesFillText(pieces: seq<string>, text: string, size: nat, k: nat)
    requires IsCutting(pieces, text, size) && k < |pieces|
    ensures OffsetAt(pieces, k + 1) <= |Utf8(text)|
    ensures OffsetAt(pieces, k + 1) == |Utf8(text)| <==> k == |pieces| - 1
  {
    OffsetAtEnd(pieces);
    OffsetsGrow(pieces, k + 1, |pieces|);
    if k + 1 < |pieces| {
      OffsetsGrow(pieces, k + 2, |pieces|);
      assert OffsetAt(pieces, k + 2) == OffsetAt(pieces, k + 1) + |Utf8(pieces[k + 1])|;
    }
  }

  lemma PieceIsPlaced(pieces: seq<string>, text: string, c: Cut, o: Output, k: nat, p: Piece)
    requires IsCutting(pieces, text, c.item) && k < |pieces| && o.bytes == |Utf8(text)| && c.item > 0
    requires p == Piece(OffsetAt(pieces, k), c.item, pieces[k])
    ensures IsPiece(p, c, o) && End(p) == OffsetAt(pieces, k + 1)
    ensures End(p) == o.bytes <==> k == |pieces| - 1
  {
    PiecesFillText(pieces, text, c.item, k);
  }

  lemma PiecesArePlaced(plan: Plan, k: nat)
    requires IsPlan(plan) && k < |plan.pieces|
    ensures IsPiece(PieceAt(plan, k), CutBy(plan.limit, plan.total), plan.o)
    ensures End(PieceAt(plan, k)) == OffsetAt(plan.pieces, k + 1)
    ensures End(PieceAt(plan, k)) == plan.o.bytes <==> k == |plan.pieces| - 1
  {
    PieceIsPlaced(plan.pieces, plan.text, CutBy(plan.limit, plan.total), plan.o, k, PieceAt(plan, k));
  }

  /** The names that go with the page `k`. */
  ghost predicate AreLabelsAt(l: Labels, plan: Plan, k: nat, digest: Digest)
    requires k < |plan.pieces|
  {
    AreLabels(l, plan.o, plan.s, CutBy(plan.limit, plan.total), PieceAt(plan, k), digest)
  }

  /** The cursor with which the page `k` is asked for. */
  function CursorAt(plan: Plan, k: nat, l: Labels): Fields
    requires k < |plan.pieces|
  {
    var c, p := CutBy(plan.limit, plan.total), PieceAt(plan, k);
    MadeCursor(plan.o, p.offset, p.size, MadeLimits(c, l.limits), l.binding, l.here)
  }

  function RequestAt(plan: Plan, k: nat, l: Labels): Fields
    requires k < |plan.pieces|
  {
    if k == 0 then MadeFirstRequest(plan.o, plan.limit, plan.total) else MadeNextRequest(plan.o, CursorAt(plan, k, l))
  }

  function ResultAt(plan: Plan, k: nat, l: Labels): Fields
    requires k < |plan.pieces|
  {
    ServedResult(plan.o, plan.s, CutBy(plan.limit, plan.total), PieceAt(plan, k), l)
  }

  predicate IsExchangeAt(e: Exchange, plan: Plan, k: nat, l: Labels)
    requires k < |plan.pieces|
  {
    e.request == RequestAt(plan, k, l) && e.result == ResultAt(plan, k, l)
  }

  // ---------------------------------------------------------------------
  // Every page of the chain is accepted

  lemma FirstRequestIsMade(o: Output, limit: nat, total: nat, made: Fields)
    requires 0 < limit <= 9007199254740991 && 0 < total <= 9007199254740991 && made == MadeFirstRequest(o, limit, total)
    ensures IsFirstRequest(made, o, limit, total, CutBy(limit, total)) && !IsContinuation(made)
  {
    FirstRequestMade(o, limit, total, made);
  }

  lemma NextRequestIsMade(o: Output, c: Cut, p: Piece, l: Labels, cursor: Fields, made: Fields)
    requires IsCursor(cursor, o, c, p.offset, p.size, l, l.here) && made == MadeNextRequest(o, cursor)
    ensures IsNextRequest(made, o, c, p, l) && IsContinuation(made) && Value(made, "cursor") == Object(cursor)
  {
    NextRequestMade(o, cursor, made);
  }

  lemma RequestIsMade(plan: Plan, k: nat, l: Labels, request: Fields) returns (asked: Asked)
    requires IsPlan(plan) && k < |plan.pieces| && request == RequestAt(plan, k, l)
    ensures IsRequest(request, plan.o, CutBy(plan.limit, plan.total), PieceAt(plan, k), l, asked)
    ensures k == 0 <==> !IsContinuation(request)
  {
    var o, c, p := plan.o, CutBy(plan.limit, plan.total), PieceAt(plan, k);
    if k == 0 {
      FirstRequestIsMade(o, plan.limit, plan.total, request);
      asked := Some((plan.limit, plan.total));
    } else {
      var cursor := CursorAt(plan, k, l);
      CursorIsMade(o, c, p.offset, p.size, l, l.here, cursor);
      NextRequestIsMade(o, c, p, l, cursor, request);
      asked := None;
    }
  }

  lemma PageIsAccepted(o: Output, s: Shown, c: Cut, p: Piece, l: Labels, request: Fields, asked: Asked, digest: Digest)
    requires IsSha256(digest) && AreLabels(l, o, s, c, p, digest) && IsRequest(request, o, c, p, l, asked)
    requires IsOutput(o) && IsShown(s, o) && IsCut(c) && IsPiece(p, c, o)
    ensures IsValidCommandArtifactPage(ServedResult(o, s, c, p, l), request, digest)
  {
    LabelsSpelled(l, o, s, c, p, digest);
    ResultIsServed(o, s, c, p, l);
    ServedIsAccepted(ServedResult(o, s, c, p, l), request, o, s, c, p, l, asked, digest);
  }

  lemma ExchangeIsAccepted(e: Exchange, plan: Plan, k: nat, l: Labels, digest: Digest)
    requires IsSha256(digest) && IsPlan(plan) && k < |plan.pieces|
    requires AreLabelsAt(l, plan, k, digest) && IsExchangeAt(e, plan, k, l)
    ensures IsValidCommandArtifactPage(e.result, e.request, digest)
    ensures k == 0 <==> !IsContinuation(e.request)
  {
    var c, p := CutBy(plan.limit, plan.total), PieceAt(plan, k);
    PiecesArePlaced(plan, k);
    var asked := RequestIsMade(plan, k, l, e.request);
    PageIsAccepted(plan.o, plan.s, c, p, l, e.request, asked, digest);
  }

  lemma CursorsMeet(o: Output, s: Shown, c: Cut, p: Piece, q: Piece, l: Labels, m: Labels, cursor: Fields,
      result: Fields, request: Fields)
    requires IsOutput(o) && IsShown(s, o) && IsCut(c) && IsPiece(p, c, o)
    requires q.offset == End(p) && q.size == p.size && End(p) != o.bytes
    requires l.limits == m.limits && l.binding == m.binding && l.next == m.here
    requires cursor == MadeCursor(o, q.offset, q.size, MadeLimits(c, m.limits), m.binding, m.here)
    requires result == ServedResult(o, s, c, p, l) && request == MadeNextRequest(o, cursor)
    ensures IsContinuation(request) && Value(request, "cursor") == Value(PageOf(result), "next_cursor")
  {
    ResultIsServed(o, s, c, p, l);
    PageMembersMade(o, p, MadeLimits(c, l.limits), l.binding, MadeNext(o, c, p, l), l.page, ServedPage(o, c, p, l));
    NextRequestMade(o, cursor, request);
  }

  /** The name of the next cursor is the name of the one that the next page is asked for with. */
  lemma LabelsMeet(o: Output, s: Shown, c: Cut, p: Piece, q: Piece, l: Labels, m: Labels, digest: Digest)
    requires q.offset == End(p) && q.size == p.size && End(p) != o.bytes
    requires AreLabels(l, o, s, c, p, digest) && AreLabels(m, o, s, c, q, digest)
    ensures l.limits == m.limits && l.binding == m.binding && l.next == m.here
  {
    LabelsSpelled(l, o, s, c, p, digest);
    LabelsSpelled(m, o, s, c, q, digest);
  }

  lemma ExchangesFollow(plan: Plan, k: nat, d: Exchange, e: Exchange, l: Labels, m: Labels, digest: Digest)
    requires IsPlan(plan) && 0 < k < |plan.pieces|
    requires AreLabelsAt(l, plan, k - 1, digest) && IsExchangeAt(d, plan, k - 1, l)
    requires AreLabelsAt(m, plan, k, digest) && IsExchangeAt(e, plan, k, m)
    ensures Follows(d, e)
  {
    var c, p, q := CutBy(plan.limit, plan.total), PieceAt(plan, k - 1), PieceAt(plan, k);
    PiecesArePlaced(plan, k - 1);
    LabelsMeet(plan.o, plan.s, c, p, q, l, m, digest);
    CursorsMeet(plan.o, plan.s, c, p, q, l, m, CursorAt(plan, k, m), d.result, e.request);
  }

  lemma ExtentServed(o: Output, s: Shown, c: Cut, p: Piece, l: Labels, result: Fields)
    requires IsOutput(o) && IsShown(s, o) && IsCut(c) && IsPiece(p, c, o) && result == ServedResult(o, s, c, p, l)
    ensures ExtentOf(result).bytes == Utf8(p.text)
    ensures ExtentOf(result).complete <==> End(p) == o.bytes
  {
    ResultIsServed(o, s, c, p, l);
    PageMembersMade(o, p, MadeLimits(c, l.limits), l.binding, MadeNext(o, c, p, l), l.page, ServedPage(o, c, p, l));
  }

  lemma ExtentAt(plan: Plan, k: nat, e: Exchange, l: Labels)
    requires IsPlan(plan) && k < |plan.pieces| && IsExchangeAt(e, plan, k, l)
    ensures ExtentOf(e.result).bytes == Utf8(plan.pieces[k])
    ensures ExtentOf(e.result).complete <==> k == |plan.pieces| - 1
  {
    PiecesArePlaced(plan, k);
    ExtentServed(plan.o, plan.s, CutBy(plan.limit, plan.total), PieceAt(plan, k), l, e.result);
  }

  lemma {:induction false} AssembledIsText(extents: seq<Extent>, pieces: seq<string>)
    requires |extents| == |pieces| && forall k | 0 <= k < |pieces| :: extents[k].bytes == Utf8(pieces[k])
    ensures Assembled(extents) == Utf8(Joined(pieces))
    decreases |pieces|
  {
    if pieces != [] {
      var n := |pieces| - 1;
      AssembledIsText(extents[..n], pieces[..n]);
      Utf8Append(Joined(pieces[..n]), pieces[n]);
    }
  }

  /** One exchange for each piece, under the names that go with it. */
  ghost predicate IsChainOf(chain: seq<Exchange>, plan: Plan, labels: seq<Labels>, digest: Digest) {
    && |chain| == |labels| == |plan.pieces|
    && (forall k | 0 <= k < |plan.pieces| :: AreLabelsAt(labels[k], plan, k, digest))
    && (forall k | 0 <= k < |plan.pieces| :: IsExchangeAt(chain[k], plan, k, labels[k]))
  }

  lemma ChainIsAccepted(plan: Plan, labels: seq<Labels>, chain: seq<Exchange>, digest: Digest)
    requires IsSha256(digest) && IsPlan(plan) && IsChainOf(chain, plan, labels, digest)
    ensures AcceptedChain(chain, digest)
  {
    forall k | 0 <= k < |chain|
      ensures IsValidCommandArtifactPage(chain[k].result, chain[k].request, digest)
      ensures k == 0 <==> !IsContinuation(chain[k].request)
    {
      ExchangeIsAccepted(chain[k], plan, k, labels[k], digest);
    }
    forall k | 0 < k < |chain|
      ensures FollowsAt(chain, k)
    {
      ExchangesFollow(plan, k, chain[k - 1], chain[k], labels[k - 1], labels[k], digest);
    }
  }

  lemma ChainIsText(plan: Plan, labels: seq<Labels>, chain: seq<Exchange>, extents: seq<Extent>, digest: Digest)
    requires IsPlan(plan) && IsChainOf(chain, plan, labels, digest) && extents == Extents(chain)
    ensures extents[|extents| - 1].complete && Assembled(extents) == Utf8(plan.text)
  {
    forall k | 0 <= k < |extents|
      ensures extents[k].bytes == Utf8(plan.pieces[k]) && (extents[k].complete <==> k == |extents| - 1)
    {
      ExtentAt(plan, k, chain[k], labels[k]);
    }
    AssembledIsText(extents, plan.pieces);
  }

  lemma LabelsFoundAt(plan: Plan, k: nat, digest: Digest) returns (l: Labels)
    requires k < |plan.pieces|
    ensures AreLabelsAt(l, plan, k, digest)
  {
    l := LabelsFound(plan.o, plan.s, CutBy(plan.limit, plan.total), PieceAt(plan, k), digest);
  }

  ghost predicate HasLabel(fits: (nat, Labels) -> bool, k: nat) {
    exists l :: fits(k, l)
  }

  /** One label for each number up to `n`. */
  lemma {:induction false} Collected(n: nat, fits: (nat, Labels) -> bool) returns (labels: seq<Labels>)
    requires forall k: nat | k < n :: HasLabel(fits, k)
    ensures |labels| == n && forall k: nat | k < n :: fits(k, labels[k])
    decreases n
  {
    if n == 0 {
      labels := [];
    } else {
      labels := Collected(n - 1, fits);
      assert HasLabel(fits, n - 1);
      var l :| fits(n - 1, l);
      labels := labels + [l];
    }
  }

  lemma ChainExists(plan: Plan, digest: Digest) returns (labels: seq<Labels>, chain: seq<Exchange>)
    requires IsPlan(plan)
    ensures IsChainOf(chain, plan, labels, digest)
  {
    var fits := (k: nat, l: Labels) => k < |plan.pieces| && AreLabelsAt(l, plan, k, digest);
    forall k: nat | k < |plan.pieces|
      ensures HasLabel(fits, k)
    {
      var l := LabelsFoundAt(plan, k, digest);
      assert fits(k, l);
    }
    labels := Collected(|plan.pieces|, fits);
    assert forall k: nat | k < |plan.pieces| :: fits(k, labels[k]);
    var names := labels;
    chain := seq(|plan.pieces|, k requires 0 <= k < |plan.pieces| =>
      Exchange(RequestAt(plan, k, names[k]), ResultAt(plan, k, names[k])));
  }

  /**
   * However the text of an output is cut into pages of the size that was asked for, there is a
   * chain of exchanges with these pages, the client accepts every one of them, each follows the
   * one before, the last one is complete, and together they are the text.
   */
  lemma CutIsAccepted(plan: Plan, digest: Digest) returns (chain: seq<Exchange>)
    requires IsSha256(digest) && IsPlan(plan)
    ensures AcceptedChain(chain, digest) && |chain| == |plan.pieces|
    ensures forall k | 0 <= k < |chain| :: ExtentOf(chain[k].result).bytes == Utf8(plan.pieces[k])
    ensures Extents(chain)[|chain| - 1].complete && Assembled(Extents(chain)) == Utf8(plan.text)
  {
    var labels;
    labels, chain := ChainExists(plan, digest);
    ChainIsAccepted(plan, labels, chain, digest);
    ChainIsText(plan, labels, chain, Extents(chain), digest);
    forall k | 0 <= k < |chain|
      ensures ExtentOf(chain[k].result).bytes == Utf8(plan.pieces[k])
    {
      ExtentAt(plan, k, chain[k], labels[k]);
    }
  }

  /** Any output whose characters fit into a page of the size asked for is served to the end. */
  lemma EveryOutputIsServed(o: Output, s: Shown, text: string, limit: nat, total: nat,
      digest: Digest) returns (chain: seq<Exchange>)
    requires IsSha256(digest) && IsOutput(o) && o.bytes == |Utf8(text)| && IsShown(s, o)
    requires 0 < limit <= 9007199254740991 && 0 < total <= 9007199254740991
    requires FitsInto(text, CutBy(limit, total).item)
    ensures AcceptedChain(chain, digest)
    ensures Extents(chain)[|chain| - 1].complete && Assembled(Extents(chain)) == Utf8(text)
  {
    var size := CutBy(limit, total).item;
    PagesCut(text, size);
    chain := CutIsAccepted(Plan(o, s, text, limit, total, Pages(text, size)), digest);
  }
}
