// assets/local_gateway.js: the token usage that the gateway extracts from the
// payloads an upstream response carries (mergeUsage, inspectUsagePayload).

module GatewayUsage {
  import opened Numbers
  import opened Options

  /**
   * A property value as finiteNumber sees it: missing, null, or present with what
   * Number(value) makes of it (None for NaN and the infinities).
   */
  datatype JsValue = Undefined | Null | Value(number: Option<real>)

  /** A usage object: the values of the aliases of each count, in the order they are tried. */
  datatype UsageObject = UsageObject(input: seq<JsValue>, output: seq<JsValue>, total: seq<JsValue>)

  /** A parsed payload: the places where it may hold a usage object (None when no object is there). */
  datatype Payload = Payload(
    kind: string,
    usage: Option<UsageObject>,
    usageMetadata: Option<UsageObject>,
    messageUsage: Option<UsageObject>,
    responseUsage: Option<UsageObject>)

  datatype Usage = Usage(inputTokens: Option<int>, outputTokens: Option<int>, totalTokens: Option<int>)

  const NO_USAGE := Usage(None, None, None)

  // ---------------------------------------------------------------------
  // finiteNumber, ?? and mergeUsage

  /** a ?? b ?? ... : the first value that is neither undefined nor null, else the last one. */
  function Coalesce(aliases: seq<JsValue>): JsValue {
    if aliases == [] then Undefined
    else if aliases[0].Value? || |aliases| == 1 then aliases[0]
    else Coalesce(aliases[1..])
  }

  /** Number(undefined) is NaN, but Number(null) is 0. */
  function FiniteNumber(value: JsValue): (r: Option<int>)
    ensures r.Some? ==> r.value >= 0
  {
    match value
    case Undefined => None
    case Null => Some(0)
    case Value(None) => None
    case Value(Some(number)) => if number >= 0.0 then Some(number.Floor) else None
  }

  function Raise(target: Option<int>, seen: Option<int>): Option<int> {
    match seen
    case None => target
    case Some(n) =>
      var floor := if target.Some? then target.value else 0;
      Some(if n > floor then n else floor)
  }

  function Merged(target: Usage, value: Option<UsageObject>): Usage {
    match value
    case None => target
    case Some(usage) =>
      Usage(
        Raise(target.inputTokens, FiniteNumber(Coalesce(usage.input))),
        Raise(target.outputTokens, FiniteNumber(Coalesce(usage.output))),
        Raise(target.totalTokens, FiniteNumber(Coalesce(usage.total))))
  }

  /** The places a payload is searched, in order; two kinds have one place searched again. */
  function Places(payload: Payload): seq<Option<UsageObject>> {
    [payload.usage, payload.usageMetadata, payload.messageUsage, payload.responseUsage]
    + (if payload.kind == "message_start" then [payload.messageUsage] else [])
    + (if payload.kind == "message_delta" then [payload.usage] else [])
  }

  function MergedAll(target: Usage, values: seq<Option<UsageObject>>): Usage {
    if values == [] then target
    else Merged(MergedAll(target, values[..|values| - 1]), values[|values| - 1])
  }

  function Inspected(target: Usage, payloads: seq<Payload>): Usage {
    if payloads == [] then target
    else MergedAll(Inspected(target, payloads[..|payloads| - 1]), Places(payloads[|payloads| - 1]))
  }

  /** The target object that both functions write into. */
  class UsageTarget {
    var inputTokens: Option<int>
    var outputTokens: Option<int>
    var totalTokens: Option<int>

    ghost function Contents(): Usage
      reads this
    {
      Usage(inputTokens, outputTokens, totalTokens)
    }

    constructor ()
      ensures Contents() == NO_USAGE
    {
      inputTokens, outputTokens, totalTokens := None, None, None;
    }

    method MergeUsage(value: Option<UsageObject>)
      modifies this
      ensures Contents() == Merged(old(Contents()), value)
    {
      if value.None? {
        return;
      }
      var input := FiniteNumber(Coalesce(value.value.input));
      var output := FiniteNumber(Coalesce(value.value.output));
      var total := FiniteNumber(Coalesce(value.value.total));
      if input.Some? {
        inputTokens := Some(Max(if inputTokens.Some? then inputTokens.value else 0, input.value));
      }
      if output.Some? {
        outputTokens := Some(Max(if outputTokens.Some? then outputTokens.value else 0, output.value));
      }
      if total.Some? {
        totalTokens := Some(Max(if totalTokens.Some? then totalTokens.value else 0, total.value));
      }
    }

    method InspectUsagePayload(payload: Payload)
      modifies this
      ensures Contents() == MergedAll(old(Contents()), Places(payload))
    {
      ghost var before := Contents();
      ghost var places := Places(payload);
      MergeUsage(payload.usage);
      MergedAllNext(before, places, 0);
      MergeUsage(payload.usageMetadata);
      MergedAllNext(before, places, 1);
      MergeUsage(payload.messageUsage);
      MergedAllNext(before, places, 2);
      MergeUsage(payload.responseUsage);
      MergedAllNext(before, places, 3);
      if payload.kind == "message_start" {
        MergeUsage(payload.messageUsage);
        MergedAllNext(before, places, 4);
      }
      if payload.kind == "message_delta" {
        MergeUsage(payload.usage);
        MergedAllNext(before, places, 4);
      }
      assert places[..|places|] == places;
    }
  }

  lemma MergedAllNext(target: Usage, values: seq<Option<UsageObject>>, k: nat)
    requires k < |values|
    ensures MergedAll(target, values[..k + 1]) == Merged(MergedAll(target, values[..k]), values[k])
    ensures values[..0] == []
  {
    assert values[..k + 1][..k] == values[..k];
  }

  // ---------------------------------------------------------------------
  // The reference: the set of counts a stream of payloads mentions

  datatype Count = Input | Output | Total

  function CountOf(usage: Usage, count: Count): Option<int> {
    match count
    case Input => usage.inputTokens
    case Output => usage.outputTokens
    case Total => usage.totalTokens
  }

  /** The number one usage object states for a count. */
  function Stated(value: Option<UsageObject>, count: Count): Option<int> {
    match value
    case None => None
    case Some(usage) =>
      FiniteNumber(Coalesce(match count case Input => usage.input case Output => usage.output case Total => usage.total))
  }

  /** The payload states the number in one of its four places. */
  ghost predicate Mentions(payload: Payload, count: Count, n: int) {
    || Stated(payload.usage, count) == Some(n)
    || Stated(payload.usageMetadata, count) == Some(n)
    || Stated(payload.messageUsage, count) == Some(n)
    || Stated(payload.responseUsage, count) == Some(n)
  }

  ghost predicate SomePayloadMentions(payloads: seq<Payload>, count: Count, n: int) {
    exists p :: p in payloads && Mentions(p, count, n)
  }

  /** The largest number mentioned; None exactly when none is mentioned. */
  ghost predicate IsLargestMention(r: Option<int>, payloads: seq<Payload>, count: Count) {
    && (forall n | SomePayloadMentions(payloads, count, n) :: r.Some? && n <= r.value)
    && (r.Some? ==> SomePayloadMentions(payloads, count, r.value))
  }

  lemma {:induction false} MergedAllIsLargest(target: Usage, values: seq<Option<UsageObject>>, count: Count)
    requires forall t | CountOf(target, count) == Some(t) :: t >= 0
    ensures var r := CountOf(MergedAll(target, values), count);
            && (forall v, n | v in values && Stated(v, count) == Some(n) :: r.Some? && n <= r.value)
            && (forall t | CountOf(target, count) == Some(t) :: r.Some? && t <= r.value)
            && (r.Some? ==> r.value >= 0)
            && (r.Some? ==> r == CountOf(target, count) || exists v :: v in values && Stated(v, count) == r)
  {
    if values != [] {
      var earlier, last := values[..|values| - 1], values[|values| - 1];
      MergedAllIsLargest(target, earlier, count);
      var before, r := CountOf(MergedAll(target, earlier), count), CountOf(MergedAll(target, values), count);
      assert r == Raise(before, Stated(last, count));
      assert forall v | v in values :: v in earlier || v == last;
      assert forall v | v in earlier :: v in values;
    }
  }

  lemma PlacesMention(payload: Payload, count: Count, n: int)
    ensures Mentions(payload, count, n) <==> exists v :: v in Places(payload) && Stated(v, count) == Some(n)
  {
    var places := Places(payload);
    assert places[0] == payload.usage && places[1] == payload.usageMetadata;
    assert places[2] == payload.messageUsage && places[3] == payload.responseUsage;
    assert forall v | v in places ::
        v == payload.usage || v == payload.usageMetadata || v == payload.messageUsage || v == payload.responseUsage;
  }

  // ---------------------------------------------------------------------
  // What a usage object states, apart from the functions above

  /** The value at `i` is the first one that is neither undefined nor null. */
  predicate IsFirstPresent(aliases: seq<JsValue>, i: int) {
    0 <= i < |aliases| && aliases[i].Value? && forall j | 0 <= j < i :: !aliases[j].Value?
  }

  /** A number that is not negative and not infinite counts by its integral part. */
  predicate Counts(value: JsValue, n: int) {
    value.Value? && value.number.Some? && value.number.value >= 0.0
    && n as real <= value.number.value < n as real + 1.0
  }

  /** The first alias that is present gives the number; when none is, a null in the last one counts as zero. */
  ghost predicate Says(aliases: seq<JsValue>, n: int) {
    || (exists i :: IsFirstPresent(aliases, i) && Counts(aliases[i], n))
    || (aliases != [] && (forall i | 0 <= i < |aliases| :: !aliases[i].Value?) && aliases[|aliases| - 1] == Null && n == 0)
  }

  lemma {:induction false} FirstPresentIsTaken(aliases: seq<JsValue>)
    ensures forall i | IsFirstPresent(aliases, i) :: Coalesce(aliases) == aliases[i]
    ensures (forall i | 0 <= i < |aliases| :: !aliases[i].Value?) ==>
              Coalesce(aliases) == if aliases == [] then Undefined else aliases[|aliases| - 1]
  {
    if |aliases| > 1 && !aliases[0].Value? {
      FirstPresentIsTaken(aliases[1..]);
      forall i | IsFirstPresent(aliases, i)
        ensures Coalesce(aliases) == aliases[i]
      {
        assert IsFirstPresent(aliases[1..], i - 1) by {
          assert forall j | 0 <= j < i - 1 :: aliases[1..][j] == aliases[j + 1];
        }
      }
      assert forall i | 0 <= i < |aliases[1..]| :: aliases[1..][i] == aliases[i + 1];
    }
  }

  lemma {:induction false} SomeFirstPresent(aliases: seq<JsValue>, k: nat)
    requires k < |aliases| && aliases[k].Value?
    ensures exists i :: IsFirstPresent(aliases, i)
    decreases k
  {
    if j :| 0 <= j < k && aliases[j].Value? {
      SomeFirstPresent(aliases, j);
    } else {
      assert IsFirstPresent(aliases, k);
    }
  }

  lemma CountIsIntegralPart(value: JsValue, n: int)
    ensures FiniteNumber(value) == Some(n) <==> Counts(value, n) || (value == Null && n == 0)
  {
  }

  function AliasesOf(usage: UsageObject, count: Count): seq<JsValue> {
    match count case Input => usage.input case Output => usage.output case Total => usage.total
  }

  /** The number that a usage object states for a count. */
  lemma StatedExactly(usage: UsageObject, count: Count, n: int)
    ensures Stated(Some(usage), count) == Some(n) <==> Says(AliasesOf(usage, count), n)
  {
    var aliases := AliasesOf(usage, count);
    FirstPresentIsTaken(aliases);
    CountIsIntegralPart(Coalesce(aliases), n);
    if k :| 0 <= k < |aliases| && aliases[k].Value? {
      SomeFirstPresent(aliases, k);
      var i :| IsFirstPresent(aliases, i);
      assert forall j | IsFirstPresent(aliases, j) :: j == i;
    }
  }

  /** After any payloads, every count is the largest number mentioned for it. */
  lemma {:induction false} UsageIsMaximum(payloads: seq<Payload>, count: Count)
    ensures IsLargestMention(CountOf(Inspected(NO_USAGE, payloads), count), payloads, count)
    ensures forall t | CountOf(Inspected(NO_USAGE, payloads), count) == Some(t) :: t >= 0
  {
    if payloads != [] {
      var earlier, last := payloads[..|payloads| - 1], payloads[|payloads| - 1];
      UsageIsMaximum(earlier, count);
      var before := Inspected(NO_USAGE, earlier);
      MergedAllIsLargest(before, Places(last), count);
      var r := CountOf(Inspected(NO_USAGE, payloads), count);
      forall n | SomePayloadMentions(payloads, count, n)
        ensures r.Some? && n <= r.value
      {
        var p :| p in payloads && Mentions(p, count, n);
        if p in earlier {
          assert SomePayloadMentions(earlier, count, n);
        } else {
          assert p == last;
          PlacesMention(last, count, n);
        }
      }
      if r.Some? {
        if r == CountOf(before, count) {
          var p :| p in earlier && Mentions(p, count, r.value);
          assert p in payloads;
        } else {
          PlacesMention(last, count, r.value);
          assert last in payloads;
        }
      }
    }
  }

  /** The order of the payloads and their repetitions do not matter: only which ones occur. */
  lemma UsageIgnoresOrder(one: seq<Payload>, two: seq<Payload>)
    requires forall p :: p in one <==> p in two
    ensures Inspected(NO_USAGE, one) == Inspected(NO_USAGE, two)
  {
    forall count: Count
      ensures CountOf(Inspected(NO_USAGE, one), count) == CountOf(Inspected(NO_USAGE, two), count)
    {
      UsageIsMaximum(one, count);
      UsageIsMaximum(two, count);
      assert forall n :: SomePayloadMentions(one, count, n) <==> SomePayloadMentions(two, count, n);
    }
    var a, b := Inspected(NO_USAGE, one), Inspected(NO_USAGE, two);
    assert CountOf(a, Input) == CountOf(b, Input);
    assert CountOf(a, Output) == CountOf(b, Output);
    assert CountOf(a, Total) == CountOf(b, Total);
  }
}
