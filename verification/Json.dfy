// JSON values as the client's validators see them (QJsonValue), and the small
// checks they share (src/agent_runtime_client.cpp, hasExactKeys .. isBoundedTimelineIdentity).

module Json {
  import opened Options
  import opened Bytes

  /** Fraction stands for a number that is not integral, by the text it prints as. */
  datatype Json =
    | Undefined
    | Null
    | Boolean(value: bool)
    | Integer(n: int)
    | Fraction(digits: string)
    | Text(text: string)
    | Array(items: seq<Json>)
    | Object(fields: Fields)

  type Fields = map<string, Json>

  /** A request together with the result it was answered by. */
  datatype Exchange = Exchange(request: Fields, result: Fields)

  const MAXIMUM_SAFE_INTEGER := 9007199254740991

  const MAXIMUM_IDENTITY_BYTES := 128

  // ---------------------------------------------------------------------
  // Access: a missing member is undefined, and a value of another type reads as the empty one

  function Value(members: Fields, key: string): Json {
    if key in members then members[key] else Undefined
  }

  function ToText(value: Json): string {
    if value.Text? then value.text else ""
  }

  function ToFields(value: Json): Fields {
    if value.Object? then value.fields else map[]
  }

  predicate IsTrue(value: Json) {
    value == Boolean(true)
  }

  /** hasExactKeys, with the keys in a list. */
  predicate HasKeys(members: Fields, keys: seq<string>) {
    (forall key | key in members :: key in keys) && (forall key | key in keys :: key in members)
  }

  predicate HasExactKeys(members: Fields, keys: set<string>) {
    members.Keys == keys
  }

  // ---------------------------------------------------------------------
  // Objects out of members

  /** An object as it is received: its members one after the other. */
  function ObjectOf(members: seq<(string, Json)>): Fields
    decreases |members|
  {
    if members == [] then map[] else ObjectOf(members[..|members| - 1])[members[|members| - 1].0 := members[|members| - 1].1]
  }

  predicate DistinctNames(members: seq<(string, Json)>) {
    forall i, j | 0 <= i < j < |members| :: members[i].0 != members[j].0
  }

  lemma {:induction false} ObjectOfIs(members: seq<(string, Json)>)
    requires DistinctNames(members)
    ensures forall key, value :: key in ObjectOf(members) && ObjectOf(members)[key] == value <==> (key, value) in members
    decreases |members|
  {
    if members != [] {
      var front, last := members[..|members| - 1], members[|members| - 1];
      ObjectOfIs(front);
      assert members == front + [last];
      assert forall i | 0 <= i < |front| :: members[i] == front[i];
    }
  }

  /** Looking up a member by its place in the list. */
  lemma MemberAt(members: seq<(string, Json)>, i: nat)
    requires DistinctNames(members) && i < |members|
    ensures members[i].0 in ObjectOf(members) && Value(ObjectOf(members), members[i].0) == members[i].1
  {
    ObjectOfIs(members);
    assert (members[i].0, members[i].1) in members;
  }

  lemma NamesAreKeys(members: seq<(string, Json)>)
    requires DistinctNames(members)
    ensures forall key :: key in ObjectOf(members) <==> exists i :: 0 <= i < |members| && members[i].0 == key
  {
    ObjectOfIs(members);
    forall i | 0 <= i < |members|
      ensures members[i].0 in ObjectOf(members)
    {
      MemberAt(members, i);
    }
  }

  // ---------------------------------------------------------------------
  // Numbers

  /** readUnsignedSafeJsonInteger */
  function ReadUnsigned(value: Json): (r: Option<nat>)
    ensures r.Some? ==> r.value <= MAXIMUM_SAFE_INTEGER && value == Integer(r.value)
  {
    if value.Integer? && 0 <= value.n <= MAXIMUM_SAFE_INTEGER then Some(value.n) else None
  }

  predicate IsSafeInteger(value: Json) {
    value.Integer? && -MAXIMUM_SAFE_INTEGER <= value.n <= MAXIMUM_SAFE_INTEGER
  }

  predicate IsPositiveSafeInteger(value: Json) {
    value.Integer? && 1 <= value.n <= MAXIMUM_SAFE_INTEGER
  }

  // ---------------------------------------------------------------------
  // Texts

  predicate IsGraphical(text: string) {
    forall i | 0 <= i < |text| :: 0x21 <= text[i] as int <= 0x7e
  }

  /** isBoundedTimelineIdentity */
  predicate IsBoundedIdentity(value: Json) {
    value.Text? && value.text != "" && Utf8Size(value.text) <= MAXIMUM_IDENTITY_BYTES && IsGraphical(value.text)
  }

  /** isAsciiGraphicalId; the text is graphical ASCII, so its units and its characters are the same. */
  predicate IsGraphicalId(value: Json, maximum: nat) {
    value.Text? && value.text != "" && |value.text| <= maximum && IsGraphical(value.text)
  }

  predicate IsLowerHexDigit(c: char) {
    '0' <= c <= '9' || 'a' <= c <= 'f'
  }

  predicate IsLowerHexSha256(text: string) {
    |text| == 64 && forall i | 0 <= i < |text| :: IsLowerHexDigit(text[i])
  }

  predicate IsSha256Identity(text: string, prefix: string) {
    prefix <= text && IsLowerHexSha256(text[|prefix|..])
  }
}
