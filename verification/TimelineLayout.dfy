// The canonical texts piece by piece (src/agent_runtime_client.cpp, canonicalTimelineItem,
// canonicalTimelineItemUpdate, timelineEventIdentity and canonicalTimelineDataValue), stated
// by the literal texts of their keys and apart from the printer's own tables.

module TimelineLayout {
  import opened Bytes
  import opened Decimal
  import opened Json
  import opened KeyOrder
  import opened CanonicalJson
  import opened Identities
  import opened TimelineEvents

  // ---------------------------------------------------------------------
  // Records

  /** The texts in front of the values, each with its value. */
  type Layout = seq<(string, Json)>

  ghost function Laid(members: Layout): string
    decreases |members|
  {
    if members == [] then "" else members[0].0 + Print(members[0].1) + Laid(members[1..])
  }

  /** A record is laid out as given when it lists the same keys and values. */
  lemma {:induction false} RecordIsLaid(opening: char, keys: seq<string>, fields: Fields, members: Layout)
    requires |keys| == |members|
    requires forall k | 0 <= k < |keys| :: members[k].1 == Value(fields, keys[k])
    requires forall k | 0 <= k < |keys| :: members[k].0 == Key(if k == 0 then opening else ',', keys[k])
    ensures PrintRecord(opening, keys, fields) == Laid(members)
    decreases |keys|
  {
    if keys != [] {
      RecordIsLaid(',', keys[1..], fields, members[1..]);
    }
  }

  // ---------------------------------------------------------------------
  // Updates, items and events

  ghost function UpdateMembers(update: Fields): Layout {
    [("{\"revision\":", Value(update, "revision")),
     (",\"content_mode\":", Value(update, "content_mode"))]
  }

  /** The text of an item update. */
  ghost function UpdateText(update: Fields): string {
    Laid(UpdateMembers(update)) + "}"
  }

  lemma UpdateKeyTexts()
    ensures Key('{', UPDATE_KEYS[0]) == "{\"revision\":"
    ensures Key(',', UPDATE_KEYS[1]) == ",\"content_mode\":"
  {
  }

  lemma UpdateLayout(update: Fields)
    ensures PrintUpdate(Object(update)) == UpdateText(update)
  {
    UpdateKeyTexts();
    RecordIsLaid('{', UPDATE_KEYS, update, UpdateMembers(update));
  }

  ghost function ItemMembers(item: Fields): Layout {
    [("{\"id\":", Value(item, "id")),
     (",\"kind\":", Value(item, "kind")),
     (",\"role\":", Value(item, "role")),
     (",\"state\":", Value(item, "state")),
     (",\"content\":", Value(item, "content"))]
  }

  /** The text of an item; the sixth member is there only when the item has it. */
  ghost function ItemText(item: Fields): string {
    Laid(ItemMembers(item) + (if "data" in item then [(",\"data\":", item["data"])] else [])) + "}"
  }

  lemma ItemKeyTexts()
    ensures Key('{', ITEM_KEYS[0]) == "{\"id\":"
    ensures Key(',', ITEM_KEYS[1]) == ",\"kind\":" && Key(',', ITEM_KEYS[2]) == ",\"role\":"
    ensures Key(',', ITEM_KEYS[3]) == ",\"state\":" && Key(',', ITEM_KEYS[4]) == ",\"content\":"
    ensures Key(',', DATA) == ",\"data\":"
  {
  }

  lemma ItemLayout(item: Fields)
    ensures PrintItem(Object(item)) == ItemText(item)
  {
    ItemKeyTexts();
    RecordIsLaid('{', ITEM_KEYS, item, ItemMembers(item));
    var data: Layout := if DATA in item then [(",\"data\":", item[DATA])] else [];
    LaidAppend(ItemMembers(item), data);
    assert PrintData(item) == Laid(data);
  }

  lemma {:induction false} LaidAppend(a: Layout, b: Layout)
    ensures Laid(a + b) == Laid(a) + Laid(b)
    decreases |a|
  {
    if a == [] {
      assert a + b == b;
    } else {
      assert (a + b)[1..] == a[1..] + b;
      LaidAppend(a[1..], b);
    }
  }

  ghost function ItemOrNull(item: Json): string
    requires IsNullable(item)
  {
    if item.Null? then "null" else ItemText(item.fields)
  }

  ghost function UpdateOrNull(update: Json): string
    requires IsNullable(update)
  {
    if update.Null? then "null" else UpdateText(update.fields)
  }

  ghost function EventMembers(event: Fields): Layout {
    [("{\"schema_version\":", Value(event, "schema_version")),
     (",\"sequence\":", Value(event, "sequence")),
     (",\"timestamp_ms\":", Value(event, "timestamp_ms")),
     (",\"correlation_id\":", Value(event, "correlation_id")),
     (",\"session_id\":", Value(event, "session_id")),
     (",\"turn_id\":", Value(event, "turn_id")),
     (",\"turn_state\":", Value(event, "turn_state")),
     (",\"event\":", Value(event, "event"))]
  }

  /** The canonical text of an event, member by member. */
  ghost function EventText(event: Fields): string
    requires IsNullable(Value(event, "item")) && IsNullable(Value(event, "item_update"))
  {
    Laid(EventMembers(event))
    + (",\"item\":" + (ItemOrNull(Value(event, "item"))
       + (",\"item_update\":" + (UpdateOrNull(Value(event, "item_update")) + "}"))))
  }

  lemma EventKeyTexts()
    ensures Key('{', BOUND_KEYS[0]) == "{\"schema_version\":" && Key(',', BOUND_KEYS[1]) == ",\"sequence\":"
    ensures Key(',', BOUND_KEYS[2]) == ",\"timestamp_ms\":" && Key(',', BOUND_KEYS[3]) == ",\"correlation_id\":"
  {
  }

  lemma MoreEventKeyTexts()
    ensures Key(',', BOUND_KEYS[4]) == ",\"session_id\":" && Key(',', BOUND_KEYS[5]) == ",\"turn_id\":"
    ensures Key(',', BOUND_KEYS[6]) == ",\"turn_state\":" && Key(',', BOUND_KEYS[7]) == ",\"event\":"
    ensures Key(',', ITEM) == ",\"item\":" && Key(',', ITEM_UPDATE) == ",\"item_update\":"
  {
  }

  lemma ScalarsLayout(event: Fields)
    ensures PrintRecord('{', BOUND_KEYS, event) == Laid(EventMembers(event))
  {
    EventKeyTexts();
    MoreEventKeyTexts();
    RecordIsLaid('{', BOUND_KEYS, event, EventMembers(event));
  }

  /** What is hashed of an event is its ten members in the order of the text, whatever order they came in. */
  lemma EventLayout(event: Fields)
    requires IsNullable(Value(event, "item")) && IsNullable(Value(event, "item_update"))
    ensures PrintEvent(event) == EventText(event)
  {
    var item, update := Value(event, "item"), Value(event, "item_update");
    ScalarsLayout(event);
    MoreEventKeyTexts();
    if item.Object? {
      ItemLayout(item.fields);
    }
    if update.Object? {
      UpdateLayout(update.fields);
    }
  }

  // ---------------------------------------------------------------------
  // Values

  predicate IsShortEscape(c: char) {
    c == 0x08 as char || c == 0x0c as char || c == '\n' || c == '\r' || c == '\t'
  }

  /** Which characters are printed as they are, with a letter, or with their code. */
  lemma EscapedExactly(c: char)
    ensures Escaped(c) == [c] <==> c as int >= 0x20 && c != '"' && c != '\\'
    ensures Escaped('"') == "\\\"" && Escaped('\\') == "\\\\"
    ensures Escaped(0x08 as char) == "\\b" && Escaped(0x0c as char) == "\\f"
    ensures Escaped('\n') == "\\n" && Escaped('\r') == "\\r" && Escaped('\t') == "\\t"
    ensures c as int < 0x20 && !IsShortEscape(c) ==>
              Escaped(c) == "\\u00" + [HEX_DIGITS[c as int / 16], HEX_DIGITS[c as int % 16]]
  {
    if c as int < 0x20 {
      HexDigitIs(c as int / 16);
      HexDigitIs(c as int % 16);
    }
  }

  /** A text is printed character by character. */
  lemma {:induction false} EscapedAppend(a: string, b: string)
    ensures EscapedText(a + b) == EscapedText(a) + EscapedText(b)
    decreases |a|
  {
    if a == "" {
      assert a + b == b;
    } else {
      assert (a + b)[1..] == a[1..] + b;
      EscapedAppend(a[1..], b);
    }
  }

  predicate IsVerbatim(text: string) {
    forall i | 0 <= i < |text| :: text[i] as int >= 0x20 && text[i] != '"' && text[i] != '\\'
  }

  lemma {:induction false} VerbatimEscapes(text: string)
    requires IsVerbatim(text)
    ensures EscapedText(text) == text
    decreases |text|
  {
    if text != "" {
      VerbatimEscapes(text[1..]);
      EscapedExactly(text[0]);
      assert text == [text[0]] + text[1..];
    }
  }

  /** A text without quotes, backslashes and control characters stands between quotes as it is. */
  lemma VerbatimText(text: string)
    requires IsVerbatim(text)
    ensures Print(Text(text)) == "\"" + text + "\""
  {
    VerbatimEscapes(text);
  }

  /** A number is printed with the digits that denote it and no leading zero. */
  lemma NumberText(n: int)
    requires n >= 0
    ensures Print(Integer(n)) == OfNat(n) && NatOf(OfNat(n)) == n
    ensures n > 0 ==> OfNat(n)[0] != '0'
    ensures n == 0 ==> OfNat(n) == "0"
    ensures n > 0 ==> Print(Integer(-n)) == "-" + OfNat(n)
  {
    NatRoundTrip(n);
    NoLeadingZero(n);
  }

  lemma {:induction false} NoLeadingZero(n: nat)
    ensures n > 0 ==> OfNat(n)[0] != '0'
  {
    if n >= 10 {
      NoLeadingZero(n / 10);
    }
  }

  /** The items of an array, each behind its bracket or comma. */
  ghost function ItemsLayout(opening: string, items: seq<Json>): (r: Layout)
    ensures |r| == |items|
  {
    seq(|items|, k requires 0 <= k < |items| => (if k == 0 then opening else ",", items[k]))
  }

  lemma {:induction false} ItemsAreLaid(opening: string, items: seq<Json>)
    requires items != []
    ensures Laid(ItemsLayout(opening, items)) == opening + PrintItems(items)
    decreases |items|
  {
    var whole := ItemsLayout(opening, items);
    if |items| == 1 {
      assert whole[1..] == [];
    } else {
      ItemsAreLaid(",", items[1..]);
      assert whole[1..] == ItemsLayout(",", items[1..]);
    }
  }

  lemma ArrayLayout(items: seq<Json>)
    ensures Print(Array(items)) == (if items == [] then "[" else Laid(ItemsLayout("[", items))) + "]"
  {
    if items != [] {
      ItemsAreLaid("[", items);
    }
  }

  /** The members of an object, each behind its brace or comma, its key and a colon. */
  ghost function MembersLayout(opening: string, fields: Fields, keys: seq<string>): (r: Layout)
    ensures |r| == |keys|
  {
    seq(|keys|, k requires 0 <= k < |keys| =>
      ((if k == 0 then opening else ",") + Print(Text(keys[k])) + ":", Value(fields, keys[k])))
  }

  lemma FirstMember(opening: string, fields: Fields, key: string)
    requires key in fields
    ensures opening + Print(Text(key)) + ":" + Print(Value(fields, key)) == opening + PrintMember(fields, key)
  {
  }

  lemma FirstIsLaid(opening: string, fields: Fields, keys: seq<string>, rest: string)
    requires keys != [] && keys[0] in fields && Laid(MembersLayout(opening, fields, keys)[1..]) == rest
    ensures Laid(MembersLayout(opening, fields, keys)) == opening + PrintMember(fields, keys[0]) + rest
  {
    FirstMember(opening, fields, keys[0]);
  }

  lemma PrintedMembers(fields: Fields, keys: seq<string>)
    requires keys != [] && forall k | 0 <= k < |keys| :: keys[k] in fields
    ensures PrintMembers(fields, keys)
         == if |keys| == 1 then PrintMember(fields, keys[0])
            else PrintMember(fields, keys[0]) + ("," + PrintMembers(fields, keys[1..]))
  {
    if |keys| > 1 {
      Regroup(PrintMember(fields, keys[0]), ",", PrintMembers(fields, keys[1..]));
    }
  }

  lemma OtherMembers(opening: string, fields: Fields, keys: seq<string>)
    requires keys != []
    ensures MembersLayout(opening, fields, keys)[1..] == MembersLayout(",", fields, keys[1..])
  {
  }

  lemma {:induction false} MembersAreLaid(opening: string, fields: Fields, keys: seq<string>)
    requires keys != [] && forall k | 0 <= k < |keys| :: keys[k] in fields
    ensures Laid(MembersLayout(opening, fields, keys)) == opening + PrintMembers(fields, keys)
    decreases |keys|
  {
    OtherMembers(opening, fields, keys);
    PrintedMembers(fields, keys);
    if |keys| == 1 {
      FirstIsLaid(opening, fields, keys, "");
    } else {
      MembersAreLaid(",", fields, keys[1..]);
      FirstIsLaid(opening, fields, keys, "," + PrintMembers(fields, keys[1..]));
      Regroup(opening, PrintMember(fields, keys[0]), "," + PrintMembers(fields, keys[1..]));
    }
  }

  /** The members of an object stand in the ascending order of their keys' bytes, whatever list gives that order. */
  lemma ObjectLayout(fields: Fields, keys: seq<string>)
    requires Ascending(keys) && (forall i, j | 0 <= i < j < |keys| :: keys[i] != keys[j])
    requires forall key :: key in keys <==> key in fields
    ensures Print(Object(fields)) == (if keys == [] then "{" else Laid(MembersLayout("{", fields, keys))) + "}"
  {
    AscendingUnique(keys, fields.Keys);
    if keys != [] {
      assert forall k | 0 <= k < |keys| :: keys[k] in keys;
      MembersAreLaid("{", fields, keys);
    }
  }

  // ---------------------------------------------------------------------
  // The identity of an event

  const EVENT_DOMAIN_TEXT := "aegisy-timeline-event/0.1"

  lemma TextIdentityLayout(text: string, digest: Digest)
    requires |Utf8(text)| < TWO_TO_THE_64
    ensures Identity(TimelineEvent, [Utf8(text)], digest)
         == "event:sha256:" + Hex(digest(Utf8(EVENT_DOMAIN_TEXT) + [0] + (UnsignedBigEndian(|Utf8(text)|) + Utf8(text))))
  {
    OneComponent(Utf8(text));
  }

  lemma OneComponent(bytes: Octets)
    requires |bytes| < TWO_TO_THE_64
    ensures LengthFramedAll([bytes]) == UnsignedBigEndian(|bytes|) + bytes
  {
    FrameOfSized(bytes);
  }

  lemma IdentityFromText(event: Fields, text: string, digest: Digest)
    requires IsNullable(Value(event, "item")) && IsNullable(Value(event, "item_update"))
    requires PrintEvent(event) == text && |Utf8(text)| < TWO_TO_THE_64
    ensures TimelineEventIdentity(event, digest)
         == "event:sha256:" + Hex(digest(Utf8(EVENT_DOMAIN_TEXT) + [0] + (UnsignedBigEndian(|Utf8(text)|) + Utf8(text))))
  {
    IdentityIsDigest(event, digest);
    TextIdentityLayout(text, digest);
  }

  /** The whole identity: the domain, NUL, eight bytes of length and the text are hashed. */
  lemma EventIdentityLayout(event: Fields, text: string, digest: Digest)
    requires IsNullable(Value(event, "item")) && IsNullable(Value(event, "item_update"))
    requires text == EventText(event) && |Utf8(text)| < TWO_TO_THE_64
    ensures TimelineEventIdentity(event, digest)
         == "event:sha256:" + Hex(digest(Utf8(EVENT_DOMAIN_TEXT) + [0] + (UnsignedBigEndian(|Utf8(text)|) + Utf8(text))))
  {
    EventLayout(event);
    IdentityFromText(event, text, digest);
  }

  lemma OnlyNullablePrint(value: Json)
    ensures PrintItem(value) != "" <==> IsNullable(value)
    ensures PrintUpdate(value) != "" <==> IsNullable(value)
  {
    if IsNullable(value) {
      NullablePrints(value);
    }
  }

  /** There is an identity exactly when item and item_update are null or objects. */
  lemma EventIdentityExists(event: Fields, digest: Digest)
    ensures TimelineEventIdentity(event, digest) != ""
       <==> IsNullable(Value(event, "item")) && IsNullable(Value(event, "item_update"))
  {
    var item, update := Value(event, ITEM), Value(event, ITEM_UPDATE);
    OnlyNullablePrint(item);
    OnlyNullablePrint(update);
    if IsNullable(item) && IsNullable(update) {
      IdentityIsDigest(event, digest);
      IdentityNotEmpty([Utf8(PrintEvent(event))], digest);
    }
  }

  lemma IdentityNotEmpty(components: seq<Octets>, digest: Digest)
    ensures Identity(TimelineEvent, components, digest) != ""
  {
  }

  // ---------------------------------------------------------------------
  // The texts of a valid event's values

  lemma VerbatimIs(text: string, quoted: string)
    requires IsVerbatim(text) && |quoted| == |text| + 2
    requires quoted[0] == '"' && quoted[1..|text| + 1] == text && quoted[|text| + 1] == '"'
    ensures Print(Text(text)) == quoted
  {
    VerbatimText(text);
  }

  lemma SchemaText()
    ensures Print(Text("timeline-event/0.1")) == "\"timeline-event/0.1\""
  {
    VerbatimIs("timeline-event/0.1", "\"timeline-event/0.1\"");
  }

  lemma NameText(value: Json, maximum: nat)
    requires IsName(value, maximum)
    ensures Print(value) == "\"" + value.text + "\""
  {
    VerbatimText(value.text);
  }

  lemma TurnStateIsVerbatim(value: Json)
    requires IsTurnState(value)
    ensures value.Text? && IsVerbatim(value.text)
  {
  }

  lemma TurnStateText(value: Json, text: string)
    requires value == Text(text) && IsVerbatim(text)
    ensures Print(value) == "\"" + text + "\""
  {
    VerbatimText(text);
  }

  lemma IdentityText(value: Json)
    requires IsBoundedIdentity(value)
    ensures Print(value) == "\"" + EscapedText(value.text) + "\""
  {
  }

  /** Numbers stand by their digits, names and states as they are, identities with their quotes and backslashes escaped. */
  lemma ValidScalarTexts(event: Fields)
    requires HasValidScalars(event)
    ensures Print(Value(event, "schema_version")) == "\"timeline-event/0.1\""
    ensures Print(Value(event, "sequence")) == OfNat(Value(event, "sequence").n)
    ensures Print(Value(event, "timestamp_ms")) == OfNat(Value(event, "timestamp_ms").n)
    ensures forall key | key in {"correlation_id", "session_id", "turn_id"} ::
              Print(Value(event, key)) == "\"" + EscapedText(Value(event, key).text) + "\""
    ensures forall key | key in {"turn_state", "event"} ::
              Print(Value(event, key)) == "\"" + Value(event, key).text + "\""
  {
    SchemaText();
    ValidNumbers(Value(event, "sequence"));
    ValidNumbers(Value(event, "timestamp_ms"));
    IdentityText(Value(event, "correlation_id"));
    IdentityText(Value(event, "session_id"));
    IdentityText(Value(event, "turn_id"));
    NameText(Value(event, "event"), 128);
    TurnStateIsVerbatim(Value(event, "turn_state"));
    TurnStateText(Value(event, "turn_state"), Value(event, "turn_state").text);
  }

  lemma ValidNumbers(value: Json)
    requires IsPositiveSafeInteger(value)
    ensures Print(value) == OfNat(value.n)
  {
  }

  // ---------------------------------------------------------------------
  // One event

  /** The texts of keys and values in turn. */
  function Alternating(keys: seq<string>, values: seq<string>): string
    requires |keys| == |values|
    decreases |keys|
  {
    if keys == [] then "" else keys[0] + values[0] + Alternating(keys[1..], values[1..])
  }

  lemma {:induction false} LaidAlternates(members: Layout, keys: seq<string>, values: seq<string>)
    requires |members| == |keys| == |values|
    requires forall k | 0 <= k < |members| :: members[k].0 == keys[k] && Print(members[k].1) == values[k]
    ensures Laid(members) == Alternating(keys, values)
    decreases |members|
  {
    if members != [] {
      LaidAlternates(members[1..], keys[1..], values[1..]);
    }
  }

  /** The event that ends a turn, third after the start of its session. */
  predicate IsTurnEnd(event: Fields) {
    && Value(event, "schema_version") == Text("timeline-event/0.1")
    && Value(event, "sequence") == Integer(3) && Value(event, "timestamp_ms") == Integer(8)
    && Value(event, "correlation_id") == Text("t1") && Value(event, "session_id") == Text("s1")
    && Value(event, "turn_id") == Text("t1") && Value(event, "turn_state") == Text("completed")
    && Value(event, "event") == Text("turn.completed")
    && Value(event, "item") == Null && Value(event, "item_update") == Null
  }

  lemma TurnTexts()
    ensures Print(Text("t1")) == "\"t1\"" && Print(Text("s1")) == "\"s1\""
    ensures Print(Integer(3)) == "3" && Print(Integer(8)) == "8"
  {
    VerbatimIs("t1", "\"t1\"");
    VerbatimIs("s1", "\"s1\"");
  }

  lemma CompletedText()
    ensures Print(Text("completed")) == "\"completed\""
  {
    VerbatimIs("completed", "\"completed\"");
  }

  lemma TurnCompletedText()
    ensures Print(Text("turn.completed")) == "\"turn.completed\""
  {
    VerbatimIs("turn.completed", "\"turn.completed\"");
  }

  lemma FirstValues(event: Fields)
    requires IsTurnEnd(event)
    ensures Print(Value(event, "schema_version")) == "\"timeline-event/0.1\""
    ensures Print(Value(event, "sequence")) == "3" && Print(Value(event, "timestamp_ms")) == "8"
  {
    SchemaText();
    TurnTexts();
  }

  lemma NextValues(event: Fields)
    requires IsTurnEnd(event)
    ensures Print(Value(event, "correlation_id")) == "\"t1\"" && Print(Value(event, "session_id")) == "\"s1\""
    ensures Print(Value(event, "turn_id")) == "\"t1\""
  {
    TurnTexts();
  }

  lemma LastValues(event: Fields)
    requires IsTurnEnd(event)
    ensures Print(Value(event, "turn_state")) == "\"completed\"" && Print(Value(event, "event")) == "\"turn.completed\""
  {
    CompletedText();
    TurnCompletedText();
  }

  const EVENT_KEY_TEXTS: seq<string> :=
    ["{\"schema_version\":", ",\"sequence\":", ",\"timestamp_ms\":", ",\"correlation_id\":", ",\"session_id\":",
     ",\"turn_id\":", ",\"turn_state\":", ",\"event\":"]

  lemma EightTexts(event: Fields, a: string, b: string, c: string, d: string, e: string, f: string, g: string, h: string)
    requires Print(Value(event, "schema_version")) == a && Print(Value(event, "sequence")) == b
    requires Print(Value(event, "timestamp_ms")) == c && Print(Value(event, "correlation_id")) == d
    requires Print(Value(event, "session_id")) == e && Print(Value(event, "turn_id")) == f
    requires Print(Value(event, "turn_state")) == g && Print(Value(event, "event")) == h
    ensures Laid(EventMembers(event)) == Alternating(EVENT_KEY_TEXTS, [a, b, c, d, e, f, g, h])
  {
    LaidAlternates(EventMembers(event), EVENT_KEY_TEXTS, [a, b, c, d, e, f, g, h]);
  }

  lemma TailText(event: Fields)
    requires Value(event, "item") == Null && Value(event, "item_update") == Null
    ensures PrintEvent(event) == Laid(EventMembers(event)) + ",\"item\":null,\"item_update\":null}"
  {
    EventLayout(event);
    NullTail();
  }

  lemma NullTail()
    ensures ",\"item\":" + ("null" + (",\"item_update\":" + ("null" + "}"))) == ",\"item\":null,\"item_update\":null}"
  {
  }

  /** The whole text of this event. */
  lemma TurnEndText(event: Fields)
    requires IsTurnEnd(event)
    ensures PrintEvent(event)
         == Alternating(EVENT_KEY_TEXTS, ["\"timeline-event/0.1\"", "3", "8", "\"t1\"", "\"s1\"", "\"t1\"", "\"completed\"",
                                          "\"turn.completed\""])
            + ",\"item\":null,\"item_update\":null}"
  {
    FirstValues(event);
    NextValues(event);
    LastValues(event);
    EightTexts(event, "\"timeline-event/0.1\"", "3", "8", "\"t1\"", "\"s1\"", "\"t1\"", "\"completed\"", "\"turn.completed\"");
    TailText(event);
  }
}
