// What the control protocol of the gateway means in terms of the messages alone: exactly when each
// message is accepted, and which message the active profile of a tool comes from.

module GatewayMessages {
  import opened Options
  import opened GatewayControl

  // ---------------------------------------------------------------------
  // Acceptance, as an if-and-only-if on the message and the entries of its tool

  /** 1 to 128 ASCII letters, digits, underscores and hyphens, by their code points. */
  predicate IsToken(id: string) {
    && 0 < |id| < 129
    && forall i | 0 <= i < |id| ::
         var u := id[i] as int;
         65 <= u <= 90 || 97 <= u <= 122 || 48 <= u <= 57 || u == 95 || u == 45
  }

  /** What every accepted message has: two ids, one of the four tools, and the tool's own revision. */
  predicate Addressed(s: State, m: Message) {
    && IsToken(m.requestId) && IsToken(m.transactionId)
    && m.tool in {"claude", "codex", "gemini", "opencode"}
    && m.expectedRevision == Some(s.Revision(m.tool)) && s.Revision(m.tool) >= 0
  }

  /** The seven members that every message has. */
  predicate HasOnly(m: Message, others: set<string>) {
    m.fields
    == {"schema", "type", "request_id", "transaction_id", "operation", "tool", "expected_revision"} + others
  }

  /** A key is given if it is a text with anything but white space in it. */
  predicate GivesKey(m: Message) {
    m.apiKey.Some? && exists i :: 0 <= i < |m.apiKey.value| && !IsJsWhitespace(m.apiKey.value[i])
  }

  /** A message that may open a transaction: a key to configure, or a removal. */
  predicate Proposes(m: Message) {
    || (m.operation == "prepare-configure" && HasOnly(m, {"apiKey", "upstream"}) && GivesKey(m))
    || (m.operation == "prepare-remove" && HasOnly(m, {}))
  }

  /** The tool has an open transaction of this id at its own revision. */
  predicate Owns(s: State, m: Message) {
    && m.tool in s.pendingProfiles
    && s.pendingProfiles[m.tool].transactionId == m.transactionId
    && s.pendingProfiles[m.tool].revision == s.Revision(m.tool)
  }

  function OutcomeOf(s: State, m: Message): Outcome {
    Handle(s, m).1.outcome
  }

  lemma ValidIdsAreTokens(id: string)
    ensures ValidId(id) <==> IsToken(id)
  {
    assert forall i | 0 <= i < |id| :: id[i] in id;
  }

  lemma WellFormedMeans(s: State, m: Message)
    ensures WellFormed(m) && m.expectedRevision.value == s.Revision(m.tool)
            <==> Addressed(s, m) && HasOnly(m, if m.operation == "prepare-configure" then {"apiKey", "upstream"} else {})
  {
    ValidIdsAreTokens(m.requestId);
    ValidIdsAreTokens(m.transactionId);
    assert COMMON_KEYS
        == {"schema", "type", "request_id", "transaction_id", "operation", "tool", "expected_revision"};
  }

  lemma KeyIsGiven(m: Message)
    ensures GivesKey(m) <==> m.apiKey.Some? && !IsBlank(m.apiKey.value)
  {
  }

  lemma OperationsDiffer()
    ensures "prepare-configure" != "prepare-remove" && "commit" != "abort"
    ensures "commit" != "prepare-configure" && "commit" != "prepare-remove"
    ensures "abort" != "prepare-configure" && "abort" != "prepare-remove"
  {
  }

  /** A message is answered with "prepared" if and only if it is addressed, proposes something and finds nothing open. */
  lemma PreparedExactly(s: State, m: Message)
    ensures OutcomeOf(s, m) == Prepared <==> Addressed(s, m) && Proposes(m) && m.tool !in s.pendingProfiles
  {
    WellFormedMeans(s, m);
    KeyIsGiven(m);
    OperationsDiffer();
  }

  /** With "committed" or "aborted" if and only if it is addressed and owns the open transaction. */
  lemma FinishedExactly(s: State, m: Message)
    ensures OutcomeOf(s, m) == Committed <==> m.operation == "commit" && Addressed(s, m) && HasOnly(m, {}) && Owns(s, m)
    ensures OutcomeOf(s, m) == Aborted <==> m.operation == "abort" && Addressed(s, m) && HasOnly(m, {}) && Owns(s, m)
  {
    WellFormedMeans(s, m);
    OperationsDiffer();
  }

  /** The answer names the message it answers, carries the new revision, and an error code exactly if it rejects. */
  lemma AnswerNamesMessage(s: State, m: Message)
    ensures var (next, reply) := Handle(s, m);
            && reply.requestId == m.requestId && reply.transactionId == m.transactionId
            && reply.operation == m.operation && reply.tool == m.tool
            && reply.revision == next.Revision(m.tool)
            && reply.errorCode == if reply.outcome == Rejected then "gateway-control-invalid" else ""
  {
  }

  // ---------------------------------------------------------------------
  // Where a profile comes from

  /** The profile that a message proposes, member by member. */
  predicate Proposed(profile: Option<Profile>, m: Message) {
    if m.operation == "prepare-remove" then profile.None?
    else
      && m.operation == "prepare-configure" && profile.Some? && m.apiKey == Some(profile.value.apiKey)
      && match m.upstream
         case Some(upstream) => profile.value.upstream == upstream
         case None => profile.value.upstream == "https://aegisy.cc"
  }

  /** The outcomes with which the messages of a history were answered. */
  function Outcomes(history: seq<Message>): (r: seq<Outcome>)
    ensures |r| == |history|
  {
    if history == [] then []
    else Outcomes(history[..|history| - 1]) + [OutcomeOf(After(history[..|history| - 1]), history[|history| - 1])]
  }

  /** Message p was prepared on the tool, and from then on to n every message for the tool was rejected. */
  ghost predicate OpenSince(history: seq<Message>, outcomes: seq<Outcome>, tool: string, p: nat, n: nat)
    requires p < n <= |history| == |outcomes|
  {
    && history[p].tool == tool && outcomes[p] == Prepared
    && forall k | p < k < n :: history[k].tool == tool ==> outcomes[k] == Rejected
  }

  /** Message c committed what message p had prepared, and no message for the tool committed after it. */
  ghost predicate LastCommit(history: seq<Message>, outcomes: seq<Outcome>, tool: string, p: nat, c: nat)
    requires p < c < |history| == |outcomes|
  {
    && OpenSince(history, outcomes, tool, p, c)
    && history[c].tool == tool && outcomes[c] == Committed && history[c].transactionId == history[p].transactionId
    && forall k | c < k < |history| :: history[k].tool == tool ==> outcomes[k] != Committed
  }

  ghost predicate NoCommit(history: seq<Message>, outcomes: seq<Outcome>, tool: string)
    requires |history| == |outcomes|
  {
    forall k | 0 <= k < |history| :: history[k].tool == tool ==> outcomes[k] != Committed
  }

  /** The open transaction of a tool is the one that the message proposes. */
  predicate OpenFor(s: State, tool: string, m: Message) {
    && tool in s.pendingProfiles && s.pendingProfiles[tool].transactionId == m.transactionId
    && Proposed(Apply(None, s.pendingProfiles[tool].action), m)
  }

  lemma PreparingOpens(s: State, m: Message)
    requires OutcomeOf(s, m) == Prepared
    ensures OpenFor(Handle(s, m).0, m.tool, m)
  {
    PreparedExactly(s, m);
    OperationsDiffer();
  }

  lemma OpenStays(s: State, m: Message, tool: string)
    requires tool in Handle(s, m).0.pendingProfiles && !(m.tool == tool && OutcomeOf(s, m) == Prepared)
    ensures m.tool == tool ==> OutcomeOf(s, m) == Rejected
    ensures Handle(s, m).0.PendingOf(tool) == s.PendingOf(tool)
  {
  }

  /** The last message accepted on a tool with an open transaction is the one that opened it. */
  lemma {:induction false} OpenedByMessage(history: seq<Message>, tool: string) returns (p: nat)
    requires tool in After(history).pendingProfiles
    ensures p < |history| && OpenSince(history, Outcomes(history), tool, p, |history|)
    ensures OpenFor(After(history), tool, history[p])
  {
    var n := |history| - 1;
    var earlier, m := history[..n], history[n];
    if m.tool == tool && OutcomeOf(After(earlier), m) == Prepared {
      p := n;
      PreparingOpens(After(earlier), m);
    } else {
      OpenStays(After(earlier), m, tool);
      p := OpenedByMessage(earlier, tool);
      OpenLonger(history, Outcomes(history), tool, p, n);
    }
  }

  lemma OpenLonger(history: seq<Message>, outcomes: seq<Outcome>, tool: string, p: nat, n: nat)
    requires p < n < |history| == |outcomes| && OpenSince(history[..n], outcomes[..n], tool, p, n)
    requires history[n].tool == tool ==> outcomes[n] == Rejected
    ensures OpenSince(history, outcomes, tool, p, n + 1)
  {
    assert forall k | p < k < n :: history[..n][k] == history[k] && outcomes[..n][k] == outcomes[k];
  }

  lemma ProfileStays(s: State, m: Message, tool: string)
    requires !(OutcomeOf(s, m) == Committed && m.tool == tool)
    ensures Handle(s, m).0.ActiveProfile(tool) == s.ActiveProfile(tool)
  {
  }

  lemma CommitApplies(s: State, m: Message, opener: Message)
    requires OutcomeOf(s, m) == Committed && OpenFor(s, m.tool, opener)
    ensures Proposed(Handle(s, m).0.ActiveProfile(m.tool), opener) && m.transactionId == opener.transactionId
  {
  }

  /** What the last committed transaction of a tool left there, in terms of the message that prepared it. */
  ghost predicate LeftBy(history: seq<Message>, outcomes: seq<Outcome>, tool: string, profile: Option<Profile>)
    requires |history| == |outcomes|
  {
    if NoCommit(history, outcomes, tool) then profile == None
    else exists p: nat, c: nat :: p < c < |history| && LastCommit(history, outcomes, tool, p, c) && Proposed(profile, history[p])
  }

  /**
   * Without a commit on the tool it has no profile; otherwise its profile is exactly what the message
   * proposed that prepared the transaction committed last: its own key and its own upstream, the
   * default upstream only if it names none, or nothing if it asked for the removal.
   */
  lemma {:induction false} ProfileComesFrom(history: seq<Message>, tool: string)
    ensures LeftBy(history, Outcomes(history), tool, After(history).ActiveProfile(tool))
  {
    if history != [] {
      var n := |history| - 1;
      var earlier, m := history[..n], history[n];
      var outcome := OutcomeOf(After(earlier), m);
      ProfileComesFrom(earlier, tool);
      if m.tool == tool && outcome == Committed {
        FinishedExactly(After(earlier), m);
        var p := OpenedByMessage(earlier, tool);
        CommitApplies(After(earlier), m, earlier[p]);
        CommitsLast(history, Outcomes(history), tool, p, n);
      } else {
        ProfileStays(After(earlier), m, tool);
        LeftStays(history, Outcomes(history), tool, After(history).ActiveProfile(tool));
      }
    }
  }

  lemma CommitsLast(history: seq<Message>, outcomes: seq<Outcome>, tool: string, p: nat, n: nat)
    requires p < n && n + 1 == |history| == |outcomes| && OpenSince(history[..n], outcomes[..n], tool, p, n)
    requires history[n].tool == tool && outcomes[n] == Committed && history[n].transactionId == history[p].transactionId
    ensures LastCommit(history, outcomes, tool, p, n) && !NoCommit(history, outcomes, tool)
  {
    assert forall k | p < k < n :: history[..n][k] == history[k] && outcomes[..n][k] == outcomes[k];
  }

  lemma LeftStays(history: seq<Message>, outcomes: seq<Outcome>, tool: string, profile: Option<Profile>)
    requires history != [] && |history| == |outcomes|
    requires var n := |history| - 1;
             LeftBy(history[..n], outcomes[..n], tool, profile) && !(history[n].tool == tool && outcomes[n] == Committed)
    ensures LeftBy(history, outcomes, tool, profile)
  {
    var n := |history| - 1;
    assert forall k | 0 <= k < n :: history[..n][k] == history[k] && outcomes[..n][k] == outcomes[k];
    if NoCommit(history[..n], outcomes[..n], tool) {
      assert NoCommit(history, outcomes, tool);
    } else {
      var k :| 0 <= k < n && history[..n][k].tool == tool && outcomes[..n][k] == Committed;
      assert history[k].tool == tool && outcomes[k] == Committed;
      var p: nat, c: nat :| p < c < n && LastCommit(history[..n], outcomes[..n], tool, p, c) && Proposed(profile, history[..n][p]);
      assert LastCommit(history, outcomes, tool, p, c);
    }
  }
}
