// Timeline events and the identity that binds their content (src/agent_runtime_client.cpp,
// isValidTimelineItem, canonicalTimelineItem, canonicalTimelineItemUpdate,
// timelineEventIdentity and isValidTimelineEventEnvelope).

module TimelineEvents {
  import opened Bytes
  import opened Json
  import opened KeyOrder
  import opened TimelineData
  import opened CanonicalJson
  import opened Identities

  /** The members that the identity hashes as they are, in its order. */
  const BOUND_KEYS: seq<string> :=
    ["schema_version", "sequence", "timestamp_ms", "correlation_id", "session_id", "turn_id", "turn_state", "event"]

  const ITEM_KEYS: seq<string> := ["id", "kind", "role", "state", "content"]

  const UPDATE_KEYS: seq<string> := ["revision", "content_mode"]

  const ITEM := "item"
  const ITEM_UPDATE := "item_update"
  const EVENT_ID := "event_id"
  const DATA := "data"

  // ---------------------------------------------------------------------
  // The identity

  ghost function PrintData(item: Fields): string {
    if DATA in item then Key(',', DATA) + Print(item[DATA]) else ""
  }

  /** canonicalTimelineItem */
  ghost function PrintItem(value: Json): string {
    match value
    case Null => "null"
    case Object(item) => PrintRecord('{', ITEM_KEYS, item) + (PrintData(item) + ['}'])
    case _ => ""
  }

  /** canonicalTimelineItemUpdate */
  ghost function PrintUpdate(value: Json): string {
    match value
    case Null => "null"
    case Object(update) => PrintRecord('{', UPDATE_KEYS, update) + ['}']
    case _ => ""
  }

  ghost function PrintEvent(event: Fields): string {
    PrintRecord('{', BOUND_KEYS, event)
    + (Key(',', ITEM) + (PrintItem(Value(event, ITEM)) + (Key(',', ITEM_UPDATE) + (PrintUpdate(Value(event, ITEM_UPDATE)) + ['}']))))
  }

  /** timelineEventIdentity; it is empty when item or item_update is neither null nor an object. */
  ghost function TimelineEventIdentity(event: Fields, digest: Digest): string {
    if PrintItem(Value(event, ITEM)) == "" || PrintUpdate(Value(event, ITEM_UPDATE)) == "" then ""
    else Identity(TimelineEvent, [Utf8(PrintEvent(event))], digest)
  }

  // ---------------------------------------------------------------------
  // Validity

  predicate IsNameCharacter(c: char) {
    'a' <= c <= 'z' || '0' <= c <= '9'
  }

  predicate IsNameSeparator(c: char) {
    c == '.' || c == '-'
  }

  /** isValidTimelineName: words of lower-case letters and digits, joined by single separators. */
  predicate IsName(value: Json, maximum: nat) {
    && value.Text? && value.text != "" && Utf8Size(value.text) <= maximum
    && 'a' <= value.text[0] <= 'z'
    && IsNameCharacter(value.text[|value.text| - 1])
    && (forall i | 0 <= i < |value.text| :: IsNameCharacter(value.text[i]) || IsNameSeparator(value.text[i]))
    && (forall i | 0 <= i < |value.text| - 1 :: IsNameSeparator(value.text[i]) ==> IsNameCharacter(value.text[i + 1]))
  }

  predicate IsRole(value: Json) {
    value == Text("user") || value == Text("agent") || value == Text("system") || value == Text("tool")
  }

  predicate IsItemState(value: Json) {
    || value == Text("started") || value == Text("running") || value == Text("delta") || value == Text("updated")
    || value == Text("completed") || value == Text("failed") || value == Text("interrupted")
    || value == Text("truncated") || value == Text("unavailable")
  }

  predicate IsTurnState(value: Json) {
    value == Text("running") || value == Text("completed") || value == Text("failed") || value == Text("interrupted")
  }

  const MAXIMUM_CONTENT := 65536

  /** isValidTimelineItem */
  ghost predicate IsValidItem(item: Fields) {
    && (HasKeys(item, ITEM_KEYS) || HasKeys(item, ITEM_KEYS + [DATA]))
    && IsBoundedIdentity(Value(item, "id"))
    && IsName(Value(item, "kind"), 64)
    && Value(item, "content").Text? && |Value(item, "content").text| <= MAXIMUM_CONTENT
    && IsRole(Value(item, "role"))
    && IsItemState(Value(item, "state"))
    && (DATA in item ==> item[DATA].Object? && Fits(item[DATA], 1, 0))
  }

  ghost predicate IsValidUpdate(update: Fields) {
    && HasKeys(update, UPDATE_KEYS)
    && IsPositiveSafeInteger(Value(update, "revision"))
    && Value(update, "content_mode") == Text("snapshot-replacement")
  }

  ghost predicate IsValidContent(item: Json, update: Json) {
    || (item.Null? && update.Null?)
    || (item.Object? && update.Object? && IsValidItem(item.fields) && IsValidUpdate(update.fields))
  }

  predicate HasValidScalars(event: Fields) {
    && Value(event, "schema_version") == Text("timeline-event/0.1")
    && IsPositiveSafeInteger(Value(event, "sequence"))
    && IsPositiveSafeInteger(Value(event, "timestamp_ms"))
    && IsBoundedIdentity(Value(event, "session_id"))
    && IsBoundedIdentity(Value(event, "turn_id"))
    && IsBoundedIdentity(Value(event, "correlation_id"))
    && IsName(Value(event, "event"), 128)
    && Value(event, "correlation_id") == Value(event, "turn_id")
    && IsTurnState(Value(event, "turn_state"))
  }

  /** isValidTimelineEventEnvelope, but for the table that ties event names to items and states. */
  ghost predicate IsValidEvent(event: Fields, digest: Digest) {
    && HasKeys(event, BOUND_KEYS + [ITEM, ITEM_UPDATE, EVENT_ID])
    && HasValidScalars(event)
    && Value(event, EVENT_ID) == Text(TimelineEventIdentity(event, digest))
    && IsValidContent(Value(event, ITEM), Value(event, ITEM_UPDATE))
  }

  // ---------------------------------------------------------------------
  // Valid events have a canonical text

  lemma {:induction false} LegalIsPlain(value: Json)
    requires Legal(value)
    ensures Plain(value)
    decreases value
  {
    match value {
      case Array(items) =>
        forall i | 0 <= i < |items|
          ensures Plain(items[i])
        {
          LegalIsPlain(items[i]);
        }
      case Object(fields) =>
        forall key | key in fields
          ensures Plain(fields[key])
        {
          LegalIsPlain(fields[key]);
        }
      case _ =>
    }
  }

  lemma ValidItemPlain(item: Fields)
    requires IsValidItem(item)
    ensures PlainMembers(item, ITEM_KEYS)
    ensures DATA in item ==> Plain(item[DATA])
  {
    if DATA in item {
      LegalIsPlain(item[DATA]);
    }
    assert ITEM_KEYS[0] == "id" && ITEM_KEYS[1] == "kind" && ITEM_KEYS[2] == "role";
    assert ITEM_KEYS[3] == "state" && ITEM_KEYS[4] == "content" && |ITEM_KEYS| == 5;
  }

  lemma ValidUpdatePlain(update: Fields)
    requires IsValidUpdate(update)
    ensures PlainMembers(update, UPDATE_KEYS)
  {
    assert UPDATE_KEYS[0] == "revision" && UPDATE_KEYS[1] == "content_mode" && |UPDATE_KEYS| == 2;
  }

  lemma ValidScalarsPlain(event: Fields)
    requires HasValidScalars(event)
    ensures PlainMembers(event, BOUND_KEYS)
  {
    assert BOUND_KEYS[0] == "schema_version" && BOUND_KEYS[1] == "sequence" && BOUND_KEYS[2] == "timestamp_ms";
    assert BOUND_KEYS[3] == "correlation_id" && BOUND_KEYS[4] == "session_id" && BOUND_KEYS[5] == "turn_id";
    assert BOUND_KEYS[6] == "turn_state" && BOUND_KEYS[7] == "event" && |BOUND_KEYS| == 8;
  }

  // ---------------------------------------------------------------------
  // The text determines the content

  /** What follows the five members: another member, or the closing brace. */
  ghost function DataTail(item: Fields, rest: string): string {
    if DATA in item then Key(',', DATA) + (Print(item[DATA]) + (['}'] + rest)) else ['}'] + rest
  }

  lemma ItemSplits(item: Fields, rest: string)
    ensures PrintItem(Object(item)) + rest == PrintRecord('{', ITEM_KEYS, item) + DataTail(item, rest)
  {
    var record := PrintRecord('{', ITEM_KEYS, item);
    Regroup(record, PrintData(item) + ['}'], rest);
    Regroup(PrintData(item), ['}'], rest);
    if DATA in item {
      Regroup(Key(',', DATA), Print(item[DATA]), ['}'] + rest);
    } else {
      assert PrintData(item) + (['}'] + rest) == ['}'] + rest;
    }
  }

  lemma DataTailStarts(item: Fields, rest: string)
    ensures DataTail(item, rest)[0] == if DATA in item then ',' else '}'
  {
  }

  lemma DataUnambiguous(a: Fields, b: Fields, restA: string, restB: string)
    requires (DATA in a ==> Plain(a[DATA])) && (DATA in b ==> Plain(b[DATA]))
    requires DataTail(a, restA) == DataTail(b, restB)
    ensures Value(a, DATA) == Value(b, DATA) && (DATA in a <==> DATA in b) && restA == restB
  {
    DataTailStarts(a, restA);
    DataTailStarts(b, restB);
    if DATA in a {
      SameFront(Key(',', DATA), Print(a[DATA]) + (['}'] + restA), Print(b[DATA]) + (['}'] + restB));
      Unambiguous(a[DATA], b[DATA], ['}'] + restA, ['}'] + restB);
    }
    SameFront(['}'], restA, restB);
  }

  /** Members that agree under the same keys make the same object. */
  lemma SameMembers(a: Fields, b: Fields, keys: seq<string>)
    requires HasKeys(a, keys) && HasKeys(b, keys)
    requires forall k | 0 <= k < |keys| :: Value(a, keys[k]) == Value(b, keys[k])
    ensures a == b
  {
    forall key | key in a
      ensures key in b && a[key] == b[key]
    {
      var k :| 0 <= k < |keys| && keys[k] == key;
      assert Value(a, keys[k]) == a[key] && Value(b, keys[k]) == b[key];
    }
    assert a.Keys == b.Keys;
  }

  lemma ItemObjectUnambiguous(a: Fields, b: Fields, restA: string, restB: string)
    requires IsValidItem(a) && IsValidItem(b)
    requires PrintItem(Object(a)) + restA == PrintItem(Object(b)) + restB
    ensures a == b && restA == restB
  {
    ValidItemPlain(a);
    ValidItemPlain(b);
    ItemTextUnambiguous(a, b, restA, restB);
    SameItems(a, b);
  }

  lemma ItemTextUnambiguous(a: Fields, b: Fields, restA: string, restB: string)
    requires PlainMembers(a, ITEM_KEYS) && (DATA in a ==> Plain(a[DATA]))
    requires PlainMembers(b, ITEM_KEYS) && (DATA in b ==> Plain(b[DATA]))
    requires PrintItem(Object(a)) + restA == PrintItem(Object(b)) + restB
    ensures forall k | 0 <= k < |ITEM_KEYS| :: Value(a, ITEM_KEYS[k]) == Value(b, ITEM_KEYS[k])
    ensures Value(a, DATA) == Value(b, DATA) && (DATA in a <==> DATA in b) && restA == restB
  {
    ItemSplits(a, restA);
    ItemSplits(b, restB);
    DataTailStarts(a, restA);
    DataTailStarts(b, restB);
    RecordUnambiguous('{', ITEM_KEYS, a, b, DataTail(a, restA), DataTail(b, restB));
    DataUnambiguous(a, b, restA, restB);
  }

  lemma SameItems(a: Fields, b: Fields)
    requires HasKeys(a, ITEM_KEYS) || HasKeys(a, ITEM_KEYS + [DATA])
    requires HasKeys(b, ITEM_KEYS) || HasKeys(b, ITEM_KEYS + [DATA])
    requires forall k | 0 <= k < |ITEM_KEYS| :: Value(a, ITEM_KEYS[k]) == Value(b, ITEM_KEYS[k])
    requires Value(a, DATA) == Value(b, DATA) && (DATA in a <==> DATA in b)
    ensures a == b
  {
    if DATA in a {
      var keys := ITEM_KEYS + [DATA];
      assert DATA in keys;
      KeysWith(a, ITEM_KEYS, DATA);
      KeysWith(b, ITEM_KEYS, DATA);
      SameMembers(a, b, keys);
    } else {
      KeysWith(a, ITEM_KEYS, DATA);
      KeysWith(b, ITEM_KEYS, DATA);
      SameMembers(a, b, ITEM_KEYS);
    }
  }

  /** With or without an optional last key. */
  lemma KeysWith(fields: Fields, keys: seq<string>, last: string)
    requires HasKeys(fields, keys) || HasKeys(fields, keys + [last])
    ensures last in fields ==> HasKeys(fields, keys + [last])
    ensures last !in fields ==> HasKeys(fields, keys)
  {
    assert (keys + [last])[|keys|] == last;
  }

  lemma ItemUnambiguous(a: Json, b: Json, restA: string, restB: string)
    requires a.Null? || (a.Object? && IsValidItem(a.fields))
    requires b.Null? || (b.Object? && IsValidItem(b.fields))
    requires PrintItem(a) + restA == PrintItem(b) + restB
    ensures a == b && restA == restB
  {
    ItemStarts(a, restA);
    ItemStarts(b, restB);
    if a.Null? {
      SameFront("null", restA, restB);
    } else {
      ItemObjectUnambiguous(a.fields, b.fields, restA, restB);
    }
  }

  lemma ItemStarts(item: Json, rest: string)
    requires item.Null? || item.Object?
    ensures var s := PrintItem(item) + rest;
            s != "" && s[0] == if item.Null? then 'n' else '{'
  {
  }

  lemma UpdateObjectUnambiguous(a: Fields, b: Fields, restA: string, restB: string)
    requires IsValidUpdate(a) && IsValidUpdate(b)
    requires PrintUpdate(Object(a)) + restA == PrintUpdate(Object(b)) + restB
    ensures a == b && restA == restB
  {
    ValidUpdatePlain(a);
    ValidUpdatePlain(b);
    Regroup(PrintRecord('{', UPDATE_KEYS, a), ['}'], restA);
    Regroup(PrintRecord('{', UPDATE_KEYS, b), ['}'], restB);
    RecordUnambiguous('{', UPDATE_KEYS, a, b, ['}'] + restA, ['}'] + restB);
    SameFront(['}'], restA, restB);
    SameMembers(a, b, UPDATE_KEYS);
  }

  lemma UpdateStarts(update: Json, rest: string)
    requires update.Null? || update.Object?
    ensures var s := PrintUpdate(update) + rest;
            s != "" && s[0] == if update.Null? then 'n' else '{'
  {
  }

  lemma UpdateUnambiguous(a: Json, b: Json, restA: string, restB: string)
    requires a.Null? || (a.Object? && IsValidUpdate(a.fields))
    requires b.Null? || (b.Object? && IsValidUpdate(b.fields))
    requires PrintUpdate(a) + restA == PrintUpdate(b) + restB
    ensures a == b && restA == restB
  {
    UpdateStarts(a, restA);
    UpdateStarts(b, restB);
    if a.Null? {
      SameFront("null", restA, restB);
    } else {
      UpdateObjectUnambiguous(a.fields, b.fields, restA, restB);
    }
  }

  /** The two last members of the text. */
  ghost function ContentTail(item: Json, update: Json): string {
    Key(',', ITEM) + (PrintItem(item) + (Key(',', ITEM_UPDATE) + (PrintUpdate(update) + ['}'])))
  }

  lemma ContentUnambiguous(itemA: Json, updateA: Json, itemB: Json, updateB: Json)
    requires IsValidContent(itemA, updateA) && IsValidContent(itemB, updateB)
    requires ContentTail(itemA, updateA) == ContentTail(itemB, updateB)
    ensures itemA == itemB && updateA == updateB
  {
    var moreA, moreB := Key(',', ITEM_UPDATE) + (PrintUpdate(updateA) + ['}']), Key(',', ITEM_UPDATE) + (PrintUpdate(updateB) + ['}']);
    SameFront(Key(',', ITEM), PrintItem(itemA) + moreA, PrintItem(itemB) + moreB);
    ItemUnambiguous(itemA, itemB, moreA, moreB);
    SameFront(Key(',', ITEM_UPDATE), PrintUpdate(updateA) + ['}'], PrintUpdate(updateB) + ['}']);
    UpdateUnambiguous(updateA, updateB, ['}'], ['}']);
  }

  /** Two valid events with the same text agree on the ten members that the identity binds. */
  lemma TextBindsEvent(a: Fields, b: Fields)
    requires HasValidScalars(a) && IsValidContent(Value(a, ITEM), Value(a, ITEM_UPDATE))
    requires HasValidScalars(b) && IsValidContent(Value(b, ITEM), Value(b, ITEM_UPDATE))
    requires PrintEvent(a) == PrintEvent(b)
    ensures forall k | 0 <= k < |BOUND_KEYS| :: Value(a, BOUND_KEYS[k]) == Value(b, BOUND_KEYS[k])
    ensures Value(a, ITEM) == Value(b, ITEM) && Value(a, ITEM_UPDATE) == Value(b, ITEM_UPDATE)
  {
    ValidScalarsPlain(a);
    ValidScalarsPlain(b);
    TextBindsMembers(a, b);
    ContentUnambiguous(Value(a, ITEM), Value(a, ITEM_UPDATE), Value(b, ITEM), Value(b, ITEM_UPDATE));
  }

  lemma TextBindsMembers(a: Fields, b: Fields)
    requires PlainMembers(a, BOUND_KEYS) && PlainMembers(b, BOUND_KEYS)
    requires PrintEvent(a) == PrintEvent(b)
    ensures forall k | 0 <= k < |BOUND_KEYS| :: Value(a, BOUND_KEYS[k]) == Value(b, BOUND_KEYS[k])
    ensures ContentTail(Value(a, ITEM), Value(a, ITEM_UPDATE)) == ContentTail(Value(b, ITEM), Value(b, ITEM_UPDATE))
  {
    RecordUnambiguous('{', BOUND_KEYS, a, b, ContentTail(Value(a, ITEM), Value(a, ITEM_UPDATE)),
                      ContentTail(Value(b, ITEM), Value(b, ITEM_UPDATE)));
  }

  predicate IsNullable(value: Json) {
    value.Null? || value.Object?
  }

  lemma NullablePrints(value: Json)
    requires IsNullable(value)
    ensures PrintItem(value) != "" && PrintUpdate(value) != ""
  {
  }

  lemma IdentityIsDigest(event: Fields, digest: Digest)
    requires IsNullable(Value(event, ITEM)) && IsNullable(Value(event, ITEM_UPDATE))
    ensures TimelineEventIdentity(event, digest) == Identity(TimelineEvent, [Utf8(PrintEvent(event))], digest)
  {
    NullablePrints(Value(event, ITEM));
    NullablePrints(Value(event, ITEM_UPDATE));
  }

  lemma DigestBindsText(a: string, b: string, digest: Digest)
    requires Injective(digest) && Sized([Utf8(a)]) && Sized([Utf8(b)])
    requires Identity(TimelineEvent, [Utf8(a)], digest) == Identity(TimelineEvent, [Utf8(b)], digest)
    ensures a == b
  {
    IdentityInjective(TimelineEvent, [Utf8(a)], [Utf8(b)], digest);
    Utf8Injective(a, b);
  }

  /** Events of equal identity have equal texts. */
  lemma IdentityBindsText(a: Fields, b: Fields, digest: Digest)
    requires Injective(digest) && Sized([Utf8(PrintEvent(a))]) && Sized([Utf8(PrintEvent(b))])
    requires IsNullable(Value(a, ITEM)) && IsNullable(Value(a, ITEM_UPDATE))
    requires IsNullable(Value(b, ITEM)) && IsNullable(Value(b, ITEM_UPDATE))
    requires TimelineEventIdentity(a, digest) == TimelineEventIdentity(b, digest)
    ensures PrintEvent(a) == PrintEvent(b)
  {
    IdentityIsDigest(a, digest);
    IdentityIsDigest(b, digest);
    DigestBindsText(PrintEvent(a), PrintEvent(b), digest);
  }

  lemma ValidContentNullable(item: Json, update: Json)
    requires IsValidContent(item, update)
    ensures IsNullable(item) && IsNullable(update)
  {
  }

  /** Valid events of equal identity agree on the ten members that the identity binds. */
  lemma IdentityBindsContent(a: Fields, b: Fields, digest: Digest)
    requires Injective(digest) && Sized([Utf8(PrintEvent(a))]) && Sized([Utf8(PrintEvent(b))])
    requires HasValidScalars(a) && IsValidContent(Value(a, ITEM), Value(a, ITEM_UPDATE))
    requires HasValidScalars(b) && IsValidContent(Value(b, ITEM), Value(b, ITEM_UPDATE))
    requires TimelineEventIdentity(a, digest) == TimelineEventIdentity(b, digest)
    ensures forall k | 0 <= k < |BOUND_KEYS| :: Value(a, BOUND_KEYS[k]) == Value(b, BOUND_KEYS[k])
    ensures Value(a, ITEM) == Value(b, ITEM) && Value(a, ITEM_UPDATE) == Value(b, ITEM_UPDATE)
  {
    ValidContentNullable(Value(a, ITEM), Value(a, ITEM_UPDATE));
    ValidContentNullable(Value(b, ITEM), Value(b, ITEM_UPDATE));
    IdentityBindsText(a, b, digest);
    TextBindsEvent(a, b);
  }

  /** Two valid events with the same identity are the same event, for the eleventh member is the identity. */
  lemma EventIdentityBinds(a: Fields, b: Fields, digest: Digest)
    requires Injective(digest) && Sized([Utf8(PrintEvent(a))]) && Sized([Utf8(PrintEvent(b))])
    requires IsValidEvent(a, digest) && IsValidEvent(b, digest)
    requires Value(a, EVENT_ID) == Value(b, EVENT_ID)
    ensures a == b
  {
    IdentityBindsContent(a, b, digest);
    SameEvents(a, b, BOUND_KEYS);
  }

  lemma SameEvents(a: Fields, b: Fields, keys: seq<string>)
    requires HasKeys(a, keys + [ITEM, ITEM_UPDATE, EVENT_ID]) && HasKeys(b, keys + [ITEM, ITEM_UPDATE, EVENT_ID])
    requires forall k | 0 <= k < |keys| :: Value(a, keys[k]) == Value(b, keys[k])
    requires Value(a, ITEM) == Value(b, ITEM) && Value(a, ITEM_UPDATE) == Value(b, ITEM_UPDATE)
    requires Value(a, EVENT_ID) == Value(b, EVENT_ID)
    ensures a == b
  {
    SameMembers(a, b, keys + [ITEM, ITEM_UPDATE, EVENT_ID]);
  }

  // ---------------------------------------------------------------------
  // The order of members is immaterial

  /** Members in another order make the same object, with the same text and the same identity. */
  lemma MemberOrderImmaterial(p: seq<(string, Json)>, q: seq<(string, Json)>, digest: Digest)
    requires DistinctNames(p) && DistinctNames(q)
    requires forall member :: member in p <==> member in q
    ensures ObjectOf(p) == ObjectOf(q)
    ensures Print(Object(ObjectOf(p))) == Print(Object(ObjectOf(q)))
    ensures TimelineEventIdentity(ObjectOf(p), digest) == TimelineEventIdentity(ObjectOf(q), digest)
  {
    ObjectOfIs(p);
    ObjectOfIs(q);
    var a, b := ObjectOf(p), ObjectOf(q);
    forall key
      ensures key in a <==> key in b
      ensures key in a && key in b ==> a[key] == b[key]
    {
      if key in a {
        assert (key, a[key]) in p;
      }
      if key in b {
        assert (key, b[key]) in q;
      }
    }
    assert a == b;
  }
}
