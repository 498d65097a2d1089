// assets/local_gateway.js, the control handler on standard input: one
// prepare/commit/abort transaction at a time per tool, guarded by a revision.

module GatewayControl {
  import opened Options

  datatype Profile = Profile(apiKey: string, upstream: string)

  datatype Action = Configure(profile: Profile) | Remove

  datatype Pending = Pending(transactionId: string, revision: int, action: Action)

  /**
   * A control message after JSON.parse. The texts are the results of the handler's
   * String(value || '') calls; expectedRevision is None when Number.isSafeInteger fails,
   * apiKey when the value is no string, upstream when the value is falsy.
   */
  datatype Message = Message(
    fields: set<string>,
    requestId: string,
    transactionId: string,
    operation: string,
    tool: string,
    expectedRevision: Option<int>,
    apiKey: Option<string>,
    upstream: Option<string>)

  datatype Outcome = Rejected | Prepared | Committed | Aborted

  datatype Reply = Reply(
    requestId: string,
    transactionId: string,
    operation: string,
    tool: string,
    outcome: Outcome,
    revision: int,
    errorCode: string)

  datatype State = State(
    profiles: map<string, Profile>,
    pendingProfiles: map<string, Pending>,
    profileRevisions: map<string, int>)
  {
    function Revision(tool: string): int {
      if tool in profileRevisions then profileRevisions[tool] else 0
    }

    function ActiveProfile(tool: string): Option<Profile> {
      if tool in profiles then Some(profiles[tool]) else None
    }

    function PendingOf(tool: string): Option<Pending> {
      if tool in pendingProfiles then Some(pendingProfiles[tool]) else None
    }
  }

  const EMPTY := State(map[], map[], map[])

  const DEFAULT_UPSTREAM := "https://aegisy.cc"

  const COMMON_KEYS: set<string> :=
    {"expected_revision", "operation", "request_id", "schema", "tool", "transaction_id", "type"}

  // ---------------------------------------------------------------------
  // The checks

  predicate IsIdCharacter(c: char) {
    'A' <= c <= 'Z' || 'a' <= c <= 'z' || '0' <= c <= '9' || c == '_' || c == '-'
  }

  predicate ValidId(id: string) {
    1 <= |id| <= 128 && forall c | c in id :: IsIdCharacter(c)
  }

  predicate SupportedTool(tool: string) {
    tool == "claude" || tool == "codex" || tool == "gemini" || tool == "opencode"
  }

  /** The characters String.prototype.trim removes. */
  predicate IsJsWhitespace(c: char) {
    var u := c as int;
    9 <= u <= 13 || u == 0x20 || u == 0xA0 || u == 0x1680 || 0x2000 <= u <= 0x200A
    || u == 0x2028 || u == 0x2029 || u == 0x202F || u == 0x205F || u == 0x3000 || u == 0xFEFF
  }

  predicate IsBlank(text: string) {
    forall c | c in text :: IsJsWhitespace(c)
  }

  function ExpectedKeys(operation: string): set<string> {
    if operation == "prepare-configure" then COMMON_KEYS + {"apiKey", "upstream"} else COMMON_KEYS
  }

  predicate WellFormed(m: Message) {
    && ValidId(m.requestId) && ValidId(m.transactionId) && SupportedTool(m.tool)
    && m.fields == ExpectedKeys(m.operation)
    && m.expectedRevision.Some? && m.expectedRevision.value >= 0
  }

  /** The transaction that a prepare message asks to open, if it opens one at all. */
  function Proposal(m: Message): Option<Action> {
    if m.operation == "prepare-configure" then
      if m.apiKey.Some? && !IsBlank(m.apiKey.value) then
        Some(Configure(Profile(m.apiKey.value, if m.upstream.Some? then m.upstream.value else DEFAULT_UPSTREAM)))
      else None
    else if m.operation == "prepare-remove" then Some(Remove)
    else None
  }

  // ---------------------------------------------------------------------
  // The handler

  function Handle(s: State, m: Message): (State, Reply) {
    var current := s.Revision(m.tool);
    var rejected :=
      Reply(m.requestId, m.transactionId, m.operation, m.tool, Rejected, current, "gateway-control-invalid");
    if !WellFormed(m) || m.expectedRevision.value != current then (s, rejected)
    else if Proposal(m).Some? && m.tool !in s.pendingProfiles then
      (s.(pendingProfiles := s.pendingProfiles[m.tool := Pending(m.transactionId, current, Proposal(m).value)]),
       rejected.(outcome := Prepared, errorCode := ""))
    else if m.tool in s.pendingProfiles
      && s.pendingProfiles[m.tool].transactionId == m.transactionId
      && s.pendingProfiles[m.tool].revision == current
    then
      if m.operation == "commit" then
        (State(
           match s.pendingProfiles[m.tool].action
           case Remove => s.profiles - {m.tool}
           case Configure(profile) => s.profiles[m.tool := profile],
           s.pendingProfiles - {m.tool},
           s.profileRevisions[m.tool := current + 1]),
         rejected.(outcome := Committed, revision := current + 1, errorCode := ""))
      else if m.operation == "abort" then
        (s.(pendingProfiles := s.pendingProfiles - {m.tool}),
         rejected.(outcome := Aborted, errorCode := ""))
      else (s, rejected)
    else (s, rejected)
  }

  class Gateway {
    var profiles: map<string, Profile>
    var pendingProfiles: map<string, Pending>
    var profileRevisions: map<string, int>

    ghost function Contents(): State
      reads this
    {
      State(profiles, pendingProfiles, profileRevisions)
    }

    constructor ()
      ensures Contents() == EMPTY
    {
      profiles, pendingProfiles, profileRevisions := map[], map[], map[];
    }

    /** The branches in the order the script tries them. */
    method HandleControl(m: Message) returns (reply: Reply)
      modifies this
      ensures (Contents(), reply) == Handle(old(Contents()), m)
    {
      var currentRevision := if m.tool in profileRevisions then profileRevisions[m.tool] else 0;
      var outcome, errorCode, revision := Rejected, "gateway-control-invalid", currentRevision;
      if ValidId(m.requestId) && ValidId(m.transactionId) && SupportedTool(m.tool)
         && m.fields == ExpectedKeys(m.operation)
         && m.expectedRevision.Some? && m.expectedRevision.value >= 0
      {
        if m.operation == "prepare-configure" && m.apiKey.Some? && !IsBlank(m.apiKey.value)
           && m.expectedRevision.value == currentRevision && m.tool !in pendingProfiles
        {
          var upstream := if m.upstream.Some? then m.upstream.value else DEFAULT_UPSTREAM;
          pendingProfiles := pendingProfiles[m.tool := Pending(m.transactionId, currentRevision,
                                                               Configure(Profile(m.apiKey.value, upstream)))];
          outcome, errorCode := Prepared, "";
        } else if m.operation == "prepare-remove"
                  && m.expectedRevision.value == currentRevision && m.tool !in pendingProfiles
        {
          pendingProfiles := pendingProfiles[m.tool := Pending(m.transactionId, currentRevision, Remove)];
          outcome, errorCode := Prepared, "";
        } else if m.operation == "commit" {
          if m.tool in pendingProfiles {
            var pending := pendingProfiles[m.tool];
            if pending.transactionId == m.transactionId && pending.revision == currentRevision
               && m.expectedRevision.value == currentRevision
            {
              match pending.action {
                case Remove => profiles := profiles - {m.tool};
                case Configure(profile) => profiles := profiles[m.tool := profile];
              }
              profileRevisions := profileRevisions[m.tool := currentRevision + 1];
              pendingProfiles := pendingProfiles - {m.tool};
              revision := currentRevision + 1;
              outcome, errorCode := Committed, "";
            }
          }
        } else if m.operation == "abort" {
          if m.tool in pendingProfiles {
            var pending := pendingProfiles[m.tool];
            if pending.transactionId == m.transactionId && pending.revision == currentRevision
               && m.expectedRevision.value == currentRevision
            {
              pendingProfiles := pendingProfiles - {m.tool};
              outcome, errorCode := Aborted, "";
            }
          }
        }
      }
      reply := Reply(m.requestId, m.transactionId, m.operation, m.tool, outcome, revision, errorCode);
    }
  }

  // ---------------------------------------------------------------------
  // Runs

  /** The state after a whole history of messages. */
  function After(history: seq<Message>): State {
    if history == [] then EMPTY
    else Handle(After(history[..|history| - 1]), history[|history| - 1]).0
  }

  function ReplyAt(history: seq<Message>, i: nat): Reply
    requires i < |history|
  {
    Handle(After(history[..i]), history[i]).1
  }

  predicate CommittedAt(history: seq<Message>, i: nat, tool: string)
    requires i < |history|
  {
    ReplyAt(history, i).outcome == Committed && history[i].tool == tool
  }

  /** The action of the latest prepare on the tool that the handler answered with "prepared". */
  function LatestPrepared(history: seq<Message>, tool: string): Option<Action> {
    if history == [] then None
    else
      var last := |history| - 1;
      if history[last].tool == tool && ReplyAt(history, last).outcome == Prepared then Proposal(history[last])
      else LatestPrepared(history[..last], tool)
  }

  /** The actions committed on a tool, read off the messages and the replies alone. */
  function CommittedActions(history: seq<Message>, tool: string): seq<Action> {
    if history == [] then []
    else
      var last := |history| - 1;
      var earlier := CommittedActions(history[..last], tool);
      if !CommittedAt(history, last, tool) then earlier
      else match LatestPrepared(history[..last], tool)
        case None => earlier
        case Some(action) => earlier + [action]
  }

  function Apply(profile: Option<Profile>, action: Action): Option<Profile> {
    match action
    case Remove => None
    case Configure(p) => Some(p)
  }

  /** Executing the committed transactions one after the other. */
  function Serial(actions: seq<Action>): Option<Profile> {
    if actions == [] then None else Apply(Serial(actions[..|actions| - 1]), actions[|actions| - 1])
  }

  /** What holds of every tool after every history. */
  ghost predicate Consistent(history: seq<Message>, tool: string) {
    var s := After(history);
    var actions := CommittedActions(history, tool);
    && s.Revision(tool) == |actions|
    && s.ActiveProfile(tool) == Serial(actions)
    && (tool in s.pendingProfiles ==>
          var p := s.pendingProfiles[tool];
          && p.revision == s.Revision(tool)
          && LatestPrepared(history, tool) == Some(p.action)
          && ValidId(p.transactionId) && SupportedTool(tool))
  }

  /**
   * Serializability: the revision counts the commits, the active profile is what the
   * committed transactions produce when run alone in order, and the open transaction, if
   * any, is the latest prepared one at the current revision.
   */
  lemma {:induction false} Serializable(history: seq<Message>, tool: string)
    ensures Consistent(history, tool)
  {
    if history != [] {
      var last := |history| - 1;
      Serializable(history[..last], tool);
      ConsistentStep(history, tool);
    }
  }

  lemma ConsistentStep(history: seq<Message>, tool: string)
    requires history != [] && Consistent(history[..|history| - 1], tool)
    ensures Consistent(history, tool)
  {
    var last := |history| - 1;
    if history[last].tool != tool {
      ConsistentElsewhere(history, tool);
    } else {
      ConsistentHere(history, tool);
    }
  }

  lemma ConsistentElsewhere(history: seq<Message>, tool: string)
    requires history != [] && Consistent(history[..|history| - 1], tool) && history[|history| - 1].tool != tool
    ensures Consistent(history, tool)
  {
    var last := |history| - 1;
    var s := After(history[..last]);
    var s' := Handle(s, history[last]).0;
    assert After(history) == s';
    assert s'.Revision(tool) == s.Revision(tool) && s'.ActiveProfile(tool) == s.ActiveProfile(tool);
    assert s'.PendingOf(tool) == s.PendingOf(tool);
  }

  lemma ConsistentHere(history: seq<Message>, tool: string)
    requires history != [] && Consistent(history[..|history| - 1], tool) && history[|history| - 1].tool == tool
    ensures Consistent(history, tool)
  {
    var last := |history| - 1;
    var earlier := history[..last];
    var s := After(earlier);
    assert After(history) == Handle(s, history[last]).0;
    if ReplyAt(history, last).outcome == Committed {
      var action := s.pendingProfiles[tool].action;
      var actions := CommittedActions(earlier, tool);
      assert CommittedActions(history, tool) == actions + [action];
      assert (actions + [action])[..|actions|] == actions;
    }
  }

  /** Revisions never go back. */
  lemma {:induction false} RevisionsGrow(history: seq<Message>, i: nat, tool: string)
    requires i <= |history|
    ensures After(history[..i]).Revision(tool) <= After(history).Revision(tool)
    decreases |history| - i
  {
    if i == |history| {
      assert history[..i] == history;
    } else {
      RevisionsGrow(history, i + 1, tool);
      var next := history[..i + 1];
      assert next[..i] == history[..i] && next[i] == history[i];
      RevisionGrows(next, tool);
    }
  }

  lemma RevisionGrows(history: seq<Message>, tool: string)
    requires history != []
    ensures After(history[..|history| - 1]).Revision(tool) <= After(history).Revision(tool)
  {
    HandleNeverLowers(After(history[..|history| - 1]), history[|history| - 1], tool);
  }

  lemma HandleNeverLowers(s: State, m: Message, tool: string)
    ensures s.Revision(tool) <= Handle(s, m).0.Revision(tool)
  {
  }

  /** A commit raises the revision, so a tool's commits carry strictly growing revisions. */
  lemma CommitsAtMostOncePerRevision(history: seq<Message>, i: nat, j: nat, tool: string)
    requires i < j < |history|
    requires CommittedAt(history, i, tool) && CommittedAt(history, j, tool)
    ensures ReplyAt(history, i).revision < ReplyAt(history, j).revision
    ensures history[i].expectedRevision != history[j].expectedRevision
  {
    var upToJ := history[..j];
    RevisionsGrow(upToJ, i + 1, tool);
    assert upToJ[..i + 1] == history[..i + 1];
    assert history[..i + 1][..i] == history[..i] && history[..i + 1][i] == history[i];
  }

  /** Replaying a committed message, however much later, is never answered with "committed". */
  lemma CommitMessageNeverAcceptedTwice(history: seq<Message>, i: nat, j: nat)
    requires i < j < |history|
    requires ReplyAt(history, i).outcome == Committed && history[j] == history[i]
    ensures ReplyAt(history, j).outcome != Committed
  {
    if ReplyAt(history, j).outcome == Committed {
      CommitsAtMostOncePerRevision(history, i, j, history[i].tool);
    }
  }

  /** Only a commit touches a profile or a revision; a rejection touches nothing. */
  lemma OnlyCommitsChangeProfiles(s: State, m: Message)
    ensures var (s', reply) := Handle(s, m);
            && (reply.outcome == Rejected ==> s' == s)
            && (reply.outcome != Committed ==>
                  s'.profiles == s.profiles && s'.profileRevisions == s.profileRevisions)
            && (reply.outcome == Committed ==>
                  s'.Revision(m.tool) == s.Revision(m.tool) + 1 && m.tool !in s'.pendingProfiles)
            && (reply.outcome == Committed || reply.outcome == Aborted ==>
                  m.tool in s.pendingProfiles && s.pendingProfiles[m.tool].transactionId == m.transactionId)
            && reply.revision == s'.Revision(m.tool)
  {
  }

  /** Aborting a transaction that was just opened restores the state exactly. */
  lemma PrepareAbortRestores(s: State, prepare: Message, abort: Message)
    requires Handle(s, prepare).1.outcome == Prepared
    requires WellFormed(abort) && abort.operation == "abort" && abort.tool == prepare.tool
    requires abort.transactionId == prepare.transactionId
    requires abort.expectedRevision == prepare.expectedRevision
    ensures var (s', reply) := Handle(Handle(s, prepare).0, abort);
            reply.outcome == Aborted && s' == s
  {
    var during := Handle(s, prepare).0;
    assert abort.operation != "prepare-configure" && abort.operation != "prepare-remove" && abort.operation != "commit";
    assert Proposal(abort) == None;
    assert s.pendingProfiles[prepare.tool := during.pendingProfiles[prepare.tool]] - {prepare.tool}
           == s.pendingProfiles;
  }

  /** No transaction gets stuck: after any history its owner can still commit or abort it. */
  lemma OpenTransactionCanFinish(history: seq<Message>, m: Message)
    requires m.tool in After(history).pendingProfiles
    requires m.transactionId == After(history).pendingProfiles[m.tool].transactionId
    requires m.expectedRevision == Some(After(history).Revision(m.tool))
    requires ValidId(m.requestId) && m.fields == COMMON_KEYS
    ensures m.operation == "commit" ==> Handle(After(history), m).1.outcome == Committed
    ensures m.operation == "abort" ==> Handle(After(history), m).1.outcome == Aborted
  {
    Serializable(history, m.tool);
    assert "commit" != "prepare-configure" && "abort" != "prepare-configure";
    assert "commit" != "prepare-remove" && "abort" != "prepare-remove" && "abort" != "commit";
  }

  // ---------------------------------------------------------------------
  // Independence of the tools

  /** Messages for different tools commute: same state, same replies, either way round. */
  lemma DifferentToolsCommute(s: State, a: Message, b: Message)
    requires a.tool != b.tool
    ensures Handle(Handle(s, a).0, b).0 == Handle(Handle(s, b).0, a).0
    ensures Handle(Handle(s, a).0, b).1 == Handle(s, b).1
    ensures Handle(Handle(s, b).0, a).1 == Handle(s, a).1
  {
    HandleIsLocal(s, a, b.tool);
    HandleIsLocal(s, b, a.tool);
    var aThenB := Handle(Handle(s, a).0, b).0;
    var bThenA := Handle(Handle(s, b).0, a).0;
    SameAnswer(s, Handle(s, a).0, b);
    SameAnswer(s, Handle(s, b).0, a);
    forall tool
      ensures SameOnTool(aThenB, bThenA, tool)
    {
      HandleIsLocal(s, a, tool);
      HandleIsLocal(s, b, tool);
      HandleIsLocal(Handle(s, a).0, b, tool);
      HandleIsLocal(Handle(s, b).0, a, tool);
    }
    SameEverywhere(aThenB, bThenA);
  }

  /** Two states hold the same three entries for the tool. */
  ghost predicate SameOnTool(s: State, t: State, tool: string) {
    && s.PendingOf(tool) == t.PendingOf(tool)
    && s.ActiveProfile(tool) == t.ActiveProfile(tool)
    && (tool in s.profileRevisions <==> tool in t.profileRevisions)
    && s.Revision(tool) == t.Revision(tool)
  }

  lemma HandleIsLocal(s: State, m: Message, tool: string)
    ensures tool != m.tool ==> SameOnTool(Handle(s, m).0, s, tool)
  {
  }

  /** The answer, and what it does to the tool's entries, depend on those entries alone. */
  lemma SameAnswer(s: State, t: State, m: Message)
    requires SameOnTool(s, t, m.tool)
    ensures Handle(s, m).1 == Handle(t, m).1
    ensures SameOnTool(Handle(s, m).0, Handle(t, m).0, m.tool)
  {
  }

  lemma SameEverywhere(s: State, t: State)
    requires forall tool :: SameOnTool(s, t, tool)
    ensures s == t
  {
    assert s.pendingProfiles == t.pendingProfiles by {
      forall tool
        ensures tool in s.pendingProfiles <==> tool in t.pendingProfiles
        ensures tool in s.pendingProfiles ==> s.pendingProfiles[tool] == t.pendingProfiles[tool]
      {
        assert SameOnTool(s, t, tool);
      }
    }
    assert s.profiles == t.profiles by {
      forall tool
        ensures tool in s.profiles <==> tool in t.profiles
        ensures tool in s.profiles ==> s.profiles[tool] == t.profiles[tool]
      {
        assert SameOnTool(s, t, tool);
      }
    }
    assert s.profileRevisions == t.profileRevisions by {
      forall tool
        ensures tool in s.profileRevisions <==> tool in t.profileRevisions
        ensures tool in s.profileRevisions ==> s.profileRevisions[tool] == t.profileRevisions[tool]
      {
        assert SameOnTool(s, t, tool);
      }
    }
  }

  function ForTool(history: seq<Message>, tool: string): seq<Message> {
    if history == [] then []
    else
      var last := |history| - 1;
      var earlier := ForTool(history[..last], tool);
      if history[last].tool == tool then earlier + [history[last]] else earlier
  }

  /** A tool's entries after a history are those its own messages alone would have left. */
  lemma {:induction false} ToolsAreIsolated(history: seq<Message>, tool: string)
    ensures SameOnTool(After(history), After(ForTool(history, tool)), tool)
  {
    if history != [] {
      var last := |history| - 1;
      var earlier, m := history[..last], history[last];
      ToolsAreIsolated(earlier, tool);
      if m.tool == tool {
        var own := ForTool(earlier, tool);
        assert (own + [m])[..|own|] == own;
        SameAnswer(After(earlier), After(own), m);
      } else {
        HandleIsLocal(After(earlier), m, tool);
      }
    }
  }

  /** Any two interleavings of the same per-tool sequences reach the same state. */
  lemma InterleavingIrrelevant(one: seq<Message>, two: seq<Message>)
    requires forall tool :: ForTool(one, tool) == ForTool(two, tool)
    ensures After(one) == After(two)
  {
    forall tool
      ensures SameOnTool(After(one), After(two), tool)
    {
      ToolsAreIsolated(one, tool);
      ToolsAreIsolated(two, tool);
    }
    SameEverywhere(After(one), After(two));
  }
}
