// The pages of durable mutation operations (src/agent_runtime_client.cpp,
// isValidDurableMutationCursor, isValidDurableMutationOperation, isValidDurableMutationPage).

module DurableMutations {
  import opened Json
  import opened Identities
  import opened ContentIdentities

  const MAXIMUM_PAGE := 100

  const OPERATION_IDENTITY := "operation_identity"
  const REVISION := "revision"
  const SESSION := "session_id"
  const AFTER := "after"
  const NEXT_AFTER := "next_after"
  const OPERATIONS := "operations"
  const COMPLETE := "complete"

  const CURSOR_KEYS: seq<string> := [OPERATION_IDENTITY, REVISION]

  const OPERATION_KEYS: seq<string> :=
    ["schema_version", OPERATION_IDENTITY, SESSION, "mutation_kind", "idempotency_key", "request_fingerprint", REVISION,
     "state", "turn_id", "accepted_anchor", "terminal_anchor", "accepted_consumed", "terminal_consumed"]

  const PAGE_KEYS: seq<string> := ["schema_version", SESSION, AFTER, OPERATIONS, NEXT_AFTER, COMPLETE]

  // ---------------------------------------------------------------------
  // Cursors and operations

  predicate IsOperationIdentity(value: Json) {
    value.Text? && IsSha256Identity(value.text, "mutation-operation:sha256:")
  }

  /** isValidDurableMutationCursor */
  predicate IsCursor(value: Json) {
    && value.Object? && HasKeys(value.fields, CURSOR_KEYS)
    && IsOperationIdentity(Value(value.fields, OPERATION_IDENTITY))
    && IsPositiveSafeInteger(Value(value.fields, REVISION))
  }

  /** isValidPositiveTimelineAnchor */
  predicate IsPositiveAnchor(value: Json) {
    && value.Object? && HasKeys(value.fields, ["sequence", "event_id"])
    && IsPositiveSafeInteger(Value(value.fields, "sequence"))
    && Value(value.fields, "event_id").Text?
    && IsSha256Identity(Value(value.fields, "event_id").text, "event:sha256:")
  }

  function Sequence(anchor: Json): int {
    var value := Value(ToFields(anchor), "sequence");
    if value.Integer? then value.n else 0
  }

  predicate HasOperationForm(operation: Fields) {
    && HasKeys(operation, OPERATION_KEYS)
    && Value(operation, "schema_version") == Text("mutation-acknowledgement-operation/0.1")
    && IsOperationIdentity(Value(operation, OPERATION_IDENTITY))
    && IsBoundedIdentity(Value(operation, SESSION))
    && Value(operation, "mutation_kind") == Text("turn-start")
    && IsBoundedIdentity(Value(operation, "idempotency_key"))
    && IsFingerprint(Value(operation, "request_fingerprint"))
    && IsPositiveSafeInteger(Value(operation, REVISION))
    && Value(operation, "accepted_consumed").Boolean?
    && Value(operation, "terminal_consumed").Boolean?
  }

  function BoundIdentity(operation: Fields, digest: Digest): string {
    DurableMutationOperationIdentity(
      ToText(Value(operation, SESSION)), ToText(Value(operation, "mutation_kind")),
      ToText(Value(operation, "idempotency_key")), ToText(Value(operation, "request_fingerprint")), digest)
  }

  /** The stages that an operation has reached, and how they go together. */
  predicate HasOperationStages(operation: Fields) {
    var turn := Value(operation, "turn_id");
    var accepted, terminal := Value(operation, "accepted_anchor"), Value(operation, "terminal_anchor");
    var acceptedConsumed := IsTrue(Value(operation, "accepted_consumed"));
    var terminalConsumed := IsTrue(Value(operation, "terminal_consumed"));
    var state := Value(operation, "state");
    && (turn.Null? || IsBoundedIdentity(turn))
    && (accepted.Null? || IsPositiveAnchor(accepted))
    && (terminal.Null? || IsPositiveAnchor(terminal))
    && !(accepted.Object? && turn.Null?)
    && !(acceptedConsumed && accepted.Null?)
    && !(terminalConsumed && !acceptedConsumed)
    && (if state == Text("accepted") || state == Text("reconciliation-required")
        then terminal.Null? && !terminalConsumed
        else && state == Text("terminal") && !turn.Null? && accepted.Object? && terminal.Object?
             && Sequence(terminal) > Sequence(accepted))
  }

  /** Nothing has been recorded of the turn yet, or only which turn it is. */
  predicate IsUnanchored(turn: Json, accepted: Json, acceptedConsumed: bool) {
    (turn == Null || IsBoundedIdentity(turn)) && accepted == Null && !acceptedConsumed
  }

  /** The turn is known and its acceptance is recorded, consumed or not. */
  predicate IsAnchored(turn: Json, accepted: Json) {
    IsBoundedIdentity(turn) && IsPositiveAnchor(accepted)
  }

  /**
   * The situations an operation may be in: open, with nothing, a turn or its acceptance
   * recorded and no end; or over, with both recorded in this order and the end consumed
   * only after the acceptance.
   */
  lemma StagesExactly(
      operation: Fields, turn: Json, accepted: Json, terminal: Json, acceptedConsumed: bool, terminalConsumed: bool)
    requires turn == Value(operation, "turn_id")
    requires accepted == Value(operation, "accepted_anchor") && terminal == Value(operation, "terminal_anchor")
    requires Value(operation, "accepted_consumed") == Boolean(acceptedConsumed)
    requires Value(operation, "terminal_consumed") == Boolean(terminalConsumed)
    ensures HasOperationStages(operation) <==>
              || (&& Value(operation, "state") in {Text("accepted"), Text("reconciliation-required")}
                  && terminal == Null && !terminalConsumed
                  && (IsUnanchored(turn, accepted, acceptedConsumed) || IsAnchored(turn, accepted)))
              || (&& Value(operation, "state") == Text("terminal")
                  && IsAnchored(turn, accepted) && IsPositiveAnchor(terminal)
                  && accepted.fields["sequence"].n < terminal.fields["sequence"].n
                  && (terminalConsumed ==> acceptedConsumed))
  {
  }

  /** isValidDurableMutationOperation */
  predicate IsOperation(value: Json, digest: Digest) {
    && value.Object?
    && HasOperationForm(value.fields)
    && BoundIdentity(value.fields, digest) != ""
    && Value(value.fields, OPERATION_IDENTITY) == Text(BoundIdentity(value.fields, digest))
    && HasOperationStages(value.fields)
  }

  // ---------------------------------------------------------------------
  // The order of identities

  /** QString's operator< on ASCII texts. */
  predicate Less(a: string, b: string)
    decreases |a|
  {
    b != "" && (a == "" || a[0] < b[0] || (a[0] == b[0] && Less(a[1..], b[1..])))
  }

  lemma {:induction false} LessIsStrictTotal(a: string, b: string, c: string)
    ensures !Less(a, a)
    ensures Less(a, b) && Less(b, c) ==> Less(a, c)
    ensures Less(a, b) || a == b || Less(b, a)
    decreases |a| + |b| + |c|
  {
    if a != "" {
      var b', c' := if b == "" then "" else b[1..], if c == "" then "" else c[1..];
      LessIsStrictTotal(a[1..], b', c');
      assert b != "" && a[0] == b[0] && a[1..] == b[1..] ==> a == [a[0]] + a[1..] == b;
    }
  }

  function IdentityAt(operations: seq<Json>, i: int): string
    requires 0 <= i < |operations|
  {
    ToText(Value(ToFields(operations[i]), OPERATION_IDENTITY))
  }

  /** Each identity is above the one before it, and the first above the previous one if there is one. */
  ghost predicate Climbs(operations: seq<Json>, previous: string) {
    forall i | 0 <= i < |operations| :: StepsUp(operations, previous, i)
  }

  predicate StepsUp(operations: seq<Json>, previous: string, i: int)
    requires 0 <= i < |operations|
  {
    var before := if i == 0 then previous else IdentityAt(operations, i - 1);
    before != "" ==> Less(before, IdentityAt(operations, i))
  }

  // ---------------------------------------------------------------------
  // Pages

  function Operations(page: Fields): seq<Json> {
    var value := Value(page, OPERATIONS);
    if value.Array? then value.items else []
  }

  /** QJsonValue::toInt */
  function ToInt(value: Json): int {
    if value.Integer? && -0x8000_0000 <= value.n < 0x8000_0000 then value.n else 0
  }

  /** The identity that the first operation of a page must be above. */
  function Previous(after: Json): string {
    ToText(Value(ToFields(after), OPERATION_IDENTITY))
  }

  predicate HasPageForm(page: Fields, request: Fields) {
    && HasKeys(page, PAGE_KEYS)
    && Value(page, "schema_version") == Text("mutation-acknowledgement-page/0.1")
    && Value(page, SESSION) == Value(request, SESSION)
    && Value(page, AFTER) == Value(request, AFTER)
    && Value(page, OPERATIONS).Array? && Value(page, COMPLETE).Boolean?
    && |Operations(page)| <= ToInt(Value(request, "limit")) && |Operations(page)| <= MAXIMUM_PAGE
    && (Value(page, AFTER).Null? || IsCursor(Value(page, AFTER)))
  }

  /** Every operation passes the check and belongs to the session. */
  ghost predicate AllBelong(operations: seq<Json>, session: Json, check: Json -> bool) {
    forall i | 0 <= i < |operations| :: check(operations[i]) && SessionOf(operations[i]) == session
  }

  function SessionOf(operation: Json): Json {
    Value(ToFields(operation), SESSION)
  }

  function Check(digest: Digest): Json -> bool {
    value => IsOperation(value, digest)
  }

  /** A complete page has no next cursor; any other one ends with the operation that its cursor names. */
  predicate EndsAt(page: Fields) {
    var operations, next := Operations(page), Value(page, NEXT_AFTER);
    if IsTrue(Value(page, COMPLETE)) then next.Null?
    else
      && operations != [] && IsCursor(next)
      && Value(next.fields, OPERATION_IDENTITY) == Value(ToFields(operations[|operations| - 1]), OPERATION_IDENTITY)
      && Value(next.fields, REVISION) == Value(ToFields(operations[|operations| - 1]), REVISION)
  }

  /** What an accepted page is. */
  ghost predicate IsPage(page: Fields, request: Fields, digest: Digest) {
    && HasPageForm(page, request)
    && AllBelong(Operations(page), Value(request, SESSION), Check(digest))
    && Climbs(Operations(page), Previous(Value(page, AFTER)))
    && EndsAt(page)
  }

  /** The loop of isValidDurableMutationPage over the operations of a page. */
  method OperationsAreValid(operations: seq<Json>, session: Json, previous: string, check: Json -> bool) returns (ok: bool)
    ensures ok <==> AllBelong(operations, session, check) && Climbs(operations, previous)
  {
    var previousIdentity := previous;
    var i := 0;
    while i < |operations|
      invariant 0 <= i <= |operations|
      invariant previousIdentity == if i == 0 then previous else IdentityAt(operations, i - 1)
      invariant forall k | 0 <= k < i :: check(operations[k]) && SessionOf(operations[k]) == session
      invariant forall k | 0 <= k < i :: StepsUp(operations, previous, k)
    {
      if !check(operations[i]) {
        return false;
      }
      var identity := IdentityAt(operations, i);
      if SessionOf(operations[i]) != session || (previousIdentity != "" && !Less(previousIdentity, identity)) {
        assert SessionOf(operations[i]) == session ==> !StepsUp(operations, previous, i);
        return false;
      }
      previousIdentity := identity;
      i := i + 1;
    }
    return true;
  }

  /** isValidDurableMutationPage */
  method IsValidDurableMutationPage(page: Fields, request: Fields, digest: Digest) returns (ok: bool)
    ensures ok <==> IsPage(page, request, digest)
  {
    if !HasPageForm(page, request) {
      return false;
    }
    ok := OperationsAreValid(Operations(page), Value(request, SESSION), Previous(Value(page, AFTER)), Check(digest));
    return ok && EndsAt(page);
  }

  // ---------------------------------------------------------------------
  // One page

  /** Strictly increasing identities, all of them above the previous one. */
  ghost predicate Rises(operations: seq<Json>, previous: string) {
    && (forall i, j | 0 <= i < j < |operations| :: Less(IdentityAt(operations, i), IdentityAt(operations, j)))
    && (previous != "" ==> forall i | 0 <= i < |operations| :: Less(previous, IdentityAt(operations, i)))
  }

  ghost predicate Identified(operations: seq<Json>) {
    forall i | 0 <= i < |operations| :: IdentityAt(operations, i) != ""
  }

  lemma OperationIsIdentified(operation: Json, digest: Digest)
    requires IsOperation(operation, digest)
    ensures ToText(Value(ToFields(operation), OPERATION_IDENTITY)) == BoundIdentity(operation.fields, digest) != ""
  {
  }

  lemma PageIsIdentified(page: Fields, request: Fields, digest: Digest)
    requires IsPage(page, request, digest)
    ensures Identified(Operations(page))
  {
    var operations := Operations(page);
    forall i | 0 <= i < |operations|
      ensures IdentityAt(operations, i) != ""
    {
      assert Check(digest)(operations[i]);
      OperationIsIdentified(operations[i], digest);
    }
  }

  lemma {:induction false} ClimbingRises(operations: seq<Json>, previous: string)
    requires Climbs(operations, previous) && Identified(operations)
    ensures Rises(operations, previous)
    decreases |operations|
  {
    if operations != [] {
      var n := |operations| - 1;
      var front := operations[..n];
      forall i | 0 <= i < |front|
        ensures StepsUp(front, previous, i)
      {
        assert StepsUp(operations, previous, i);
      }
      assert forall i | 0 <= i < n :: IdentityAt(front, i) == IdentityAt(operations, i);
      ClimbingRises(front, previous);
      assert StepsUp(operations, previous, n);
      LastIsAbove(operations, previous);
    }
  }

  lemma LastIsAbove(operations: seq<Json>, previous: string)
    requires operations != [] && Identified(operations)
    requires Rises(operations[..|operations| - 1], previous) && StepsUp(operations, previous, |operations| - 1)
    ensures Rises(operations, previous)
  {
    var n := |operations| - 1;
    var front := operations[..n];
    assert forall i | 0 <= i < n :: IdentityAt(front, i) == IdentityAt(operations, i);
    if n > 0 {
      forall i | 0 <= i < n
        ensures Less(IdentityAt(operations, i), IdentityAt(operations, n))
      {
        LessIsStrictTotal(IdentityAt(operations, i), IdentityAt(operations, n - 1), IdentityAt(operations, n));
      }
      LessIsStrictTotal(previous, IdentityAt(operations, n - 1), IdentityAt(operations, n));
    }
  }

  /** An incomplete page is not empty, and its cursor is above the one it was asked for. */
  lemma IncompletePageAdvances(page: Fields, request: Fields, digest: Digest)
    requires IsPage(page, request, digest) && !IsTrue(Value(page, COMPLETE))
    ensures var operations := Operations(page);
            && operations != []
            && Previous(Value(page, NEXT_AFTER)) == IdentityAt(operations, |operations| - 1)
            && (!Value(page, AFTER).Null? ==> Less(Previous(Value(page, AFTER)), Previous(Value(page, NEXT_AFTER))))
  {
    PageIsIdentified(page, request, digest);
    ClimbingRises(Operations(page), Previous(Value(page, AFTER)));
    CursorIsIdentified(Value(page, AFTER));
  }

  lemma CursorIsIdentified(cursor: Json)
    ensures IsCursor(cursor) ==> Previous(cursor) != ""
  {
  }

  // ---------------------------------------------------------------------
  // Chains of pages

  /** The request asks for what follows the page before it. */
  ghost predicate Continues(chain: seq<Exchange>, i: int)
    requires 0 < i < |chain|
  {
    && !IsTrue(Value(chain[i - 1].result, COMPLETE))
    && Value(chain[i].request, AFTER) == Value(chain[i - 1].result, NEXT_AFTER)
    && Value(chain[i].request, SESSION) == Value(chain[i - 1].request, SESSION)
  }

  ghost predicate IsChain(chain: seq<Exchange>, digest: Digest) {
    && (forall i | 0 <= i < |chain| :: IsPage(chain[i].result, chain[i].request, digest))
    && (forall i | 0 < i < |chain| :: Continues(chain, i))
  }

  function AllOperations(chain: seq<Exchange>): seq<Json>
    decreases |chain|
  {
    if chain == [] then [] else AllOperations(chain[..|chain| - 1]) + Operations(chain[|chain| - 1].result)
  }

  /** What a chain needs to know about one page. */
  ghost predicate HasOrder(exchange: Exchange) {
    var operations := Operations(exchange.result);
    && Rises(operations, Previous(Value(exchange.result, AFTER)))
    && Value(exchange.result, AFTER) == Value(exchange.request, AFTER)
    && (!IsTrue(Value(exchange.result, COMPLETE)) ==>
          operations != [] && Previous(Value(exchange.result, NEXT_AFTER)) == IdentityAt(operations, |operations| - 1) != "")
  }

  lemma PageHasOrder(exchange: Exchange, digest: Digest)
    requires IsPage(exchange.result, exchange.request, digest)
    ensures HasOrder(exchange)
  {
    PageIsIdentified(exchange.result, exchange.request, digest);
    ClimbingRises(Operations(exchange.result), Previous(Value(exchange.result, AFTER)));
    if !IsTrue(Value(exchange.result, COMPLETE)) {
      IncompletePageAdvances(exchange.result, exchange.request, digest);
    }
  }

  ghost predicate IsOrdered(chain: seq<Exchange>) {
    (forall i | 0 <= i < |chain| :: HasOrder(chain[i])) && (forall i | 0 < i < |chain| :: Continues(chain, i))
  }

  lemma OrderedFront(chain: seq<Exchange>)
    requires IsOrdered(chain) && chain != []
    ensures IsOrdered(chain[..|chain| - 1])
  {
    var front := chain[..|chain| - 1];
    forall i | 0 < i < |front|
      ensures Continues(front, i)
    {
      assert Continues(chain, i);
    }
  }

  /** Appending operations that rise from the last one before them. */
  lemma RisesOn(a: seq<Json>, b: seq<Json>, previous: string)
    requires Rises(a, "") && Rises(b, previous)
    requires a != [] ==> previous == IdentityAt(a, |a| - 1) != ""
    ensures Rises(a + b, "")
  {
    var whole := a + b;
    assert forall i | 0 <= i < |a| :: IdentityAt(whole, i) == IdentityAt(a, i);
    assert forall i | 0 <= i < |b| :: IdentityAt(whole, |a| + i) == IdentityAt(b, i);
    forall i, j | 0 <= i < j < |whole|
      ensures Less(IdentityAt(whole, i), IdentityAt(whole, j))
    {
      if i < |a| <= j {
        assert IdentityAt(whole, j) == IdentityAt(b, j - |a|);
        LessIsStrictTotal(IdentityAt(a, i), previous, IdentityAt(b, j - |a|));
        assert i < |a| - 1 ==> Less(IdentityAt(a, i), IdentityAt(a, |a| - 1));
      } else if |a| <= i {
        assert IdentityAt(whole, i) == IdentityAt(b, i - |a|) && IdentityAt(whole, j) == IdentityAt(b, j - |a|);
      }
    }
  }

  /** The cursor of an incomplete page names the last operation of the list. */
  ghost predicate EndsWith(operations: seq<Json>, last: Exchange) {
    !IsTrue(Value(last.result, COMPLETE)) ==>
      operations != [] && Previous(Value(last.result, NEXT_AFTER)) == IdentityAt(operations, |operations| - 1) != ""
  }

  lemma {:induction false} OrderedRises(chain: seq<Exchange>)
    requires IsOrdered(chain) && chain != []
    ensures Rises(AllOperations(chain), "") && EndsWith(AllOperations(chain), chain[|chain| - 1])
    decreases |chain|
  {
    var n := |chain| - 1;
    var front, last := chain[..n], chain[n];
    if n > 0 {
      OrderedFront(chain);
      OrderedRises(front);
      LastFollows(chain);
    }
    PageExtends(AllOperations(front), last);
  }

  lemma LastFollows(chain: seq<Exchange>)
    requires IsOrdered(chain) && |chain| > 1
    ensures var n := |chain| - 1;
            && !IsTrue(Value(chain[n - 1].result, COMPLETE))
            && Value(chain[n].result, AFTER) == Value(chain[n - 1].result, NEXT_AFTER)
  {
    var n := |chain| - 1;
    assert Continues(chain, n) && HasOrder(chain[n]);
  }

  /** A page that starts where the operations before it end. */
  lemma PageExtends(before: seq<Json>, last: Exchange)
    requires Rises(before, "") && HasOrder(last)
    requires before != [] ==> Previous(Value(last.result, AFTER)) == IdentityAt(before, |before| - 1) != ""
    ensures Rises(before + Operations(last.result), "") && EndsWith(before + Operations(last.result), last)
  {
    RisesOn(before, Operations(last.result), Previous(Value(last.result, AFTER)));
    LastIdentity(before, Operations(last.result));
  }

  lemma LastIdentity(a: seq<Json>, b: seq<Json>)
    ensures b != [] ==> IdentityAt(a + b, |a + b| - 1) == IdentityAt(b, |b| - 1)
  {
  }

  /** Across all pages of a chain the operation identities are strictly increasing, so none occurs twice. */
  lemma ChainRises(chain: seq<Exchange>, digest: Digest)
    requires IsChain(chain, digest)
    ensures Rises(AllOperations(chain), "")
  {
    forall i | 0 <= i < |chain|
      ensures HasOrder(chain[i])
    {
      PageHasOrder(chain[i], digest);
    }
    if chain != [] {
      OrderedRises(chain);
    }
  }

  lemma {:induction false} ChainOperationsValid(chain: seq<Exchange>, digest: Digest, i: nat)
    requires (forall k | 0 <= k < |chain| :: AllBelong(Operations(chain[k].result), Value(chain[k].request, SESSION), Check(digest)))
    requires i < |AllOperations(chain)|
    ensures IsOperation(AllOperations(chain)[i], digest)
    decreases |chain|
  {
    var n := |chain| - 1;
    var front := chain[..n];
    if i < |AllOperations(front)| {
      ChainOperationsValid(front, digest, i);
    } else {
      assert Check(digest)(Operations(chain[n].result)[i - |AllOperations(front)|]);
    }
  }

  /** Two operations at different places of a chain are not operations on the same request. */
  lemma ChainHasNoDuplicates(chain: seq<Exchange>, digest: Digest, i: nat, j: nat)
    requires IsChain(chain, digest) && i < j < |AllOperations(chain)|
    ensures var a, b := ToFields(AllOperations(chain)[i]), ToFields(AllOperations(chain)[j]);
            || Value(a, SESSION) != Value(b, SESSION)
            || Value(a, "idempotency_key") != Value(b, "idempotency_key")
            || Value(a, "request_fingerprint") != Value(b, "request_fingerprint")
  {
    ChainRises(chain, digest);
    ChainOperationsValid(chain, digest, i);
    ChainOperationsValid(chain, digest, j);
    LessIsStrictTotal(IdentityAt(AllOperations(chain), i), IdentityAt(AllOperations(chain), j), "");
    SameRequestSameIdentity(AllOperations(chain)[i], AllOperations(chain)[j], digest);
  }

  lemma SameRequestSameIdentity(a: Json, b: Json, digest: Digest)
    requires IsOperation(a, digest) && IsOperation(b, digest)
    ensures && Value(a.fields, SESSION) == Value(b.fields, SESSION)
            && Value(a.fields, "idempotency_key") == Value(b.fields, "idempotency_key")
            && Value(a.fields, "request_fingerprint") == Value(b.fields, "request_fingerprint")
            ==> Value(a.fields, OPERATION_IDENTITY) == Value(b.fields, OPERATION_IDENTITY)
  {
  }
}
