// What the runtime client makes of the messages it receives and of the requests it is asked for, in
// terms of its fields: handshakes, results, heartbeats and recoveries.

module ClientExchanges {
  import opened Capabilities
  import opened ClientState
  import opened ClientRequests
  import opened ClientInvariants
  import opened ClientReadiness
  import opened ClientReports
  import opened ClientProgress

  // ---------------------------------------------------------------------
  // Handshakes

  /** An open handshake of the current generation, with its request pending. */
  predicate Shakes(s: ClientState) {
    && s.session.initializeId != 0 && s.session.initializeGeneration == s.process.generation
    && s.session.initializeId in s.requests.pending
    && s.requests.pending[s.session.initializeId] == Pending(Initialize, s.process.generation)
    && s.session.initializeId !in s.requests.retired
    && !s.session.handshakeComplete && !s.session.recoveryPending
    && !s.heartbeat.negotiated && s.heartbeat.id == 0
    && s.process.running && !s.process.discardOutput
  }

  /** Every frame can be written. */
  ghost predicate WritesAll(env: Environment) {
    env.notifies && forall id :: env.write(id) == Written
  }

  /** The answer to the open handshake. */
  function Answering(s: ClientState, body: Body): Frame {
    Response(s.session.initializeId, Matched, body)
  }

  lemma AnswerProcessed(s: ClientState, env: Environment, body: Body)
    requires Shakes(s)
    ensures Step(s, env, Read([Answering(s, body)]))
         == if body.Neither? then RejectInitialize(s) else ProcessInitialize(s, env, body)
  {
    var frame := Answering(s, body);
    assert PendingCurrent(s, s.session.initializeId);
    assert ProcessFrame(s, env, frame) == DispatchEarly(s, env, s.session.initializeId, Initialize, body);
    OneFrameRead(s, env, frame);
  }

  lemma OneFrameRead(s: ClientState, env: Environment, frame: Frame)
    requires FrameLimit(s) > 0 && !s.process.discardOutput
    ensures Step(s, env, Read([frame])) == ProcessFrame(s, env, frame)
  {
    assert [frame][1..] == [];
    assert ProcessFrames(ProcessFrame(s, env, frame), env, []) == ProcessFrame(s, env, frame);
    assert Step(s, env, Read([frame])) == OnRead(s, env, [frame]);
  }

  /** The connection as the initialize result settles it. */
  predicate AsSettled(s: ClientState, hello: InitializeResult, next: ClientState) {
    && next.process == s.process && next.reconnect == s.reconnect
    && next.session.handshakeComplete && next.session.initializeId == 0 && next.session.startupGeneration == 0
    && (next.session.ready <==> hello.status.Ready? || hello.status.ReadOnlyRecovery?)
    && (next.session.recoveryMode <==> hello.status.ReadOnlyRecovery?)
    && (forall capability :: capability in next.session.capabilities <==> capability in hello.stable)
    && next.session.frameLimit == hello.frameLimit
    && (next.heartbeat.negotiated <==> RuntimeHeartbeatOutOfBand in hello.stable)
    && next.heartbeat.healthy == next.heartbeat.negotiated
  }

  function Verbs(s: ClientState): set<Method> {
    set id | id in s.requests.pending :: s.requests.pending[id].verb
  }

  /** No id above the last one is in the table. */
  predicate Numbered(s: ClientState) {
    forall id | id in s.requests.pending :: id <= s.requests.next
  }

  /** A connection on which an ordinary request can go out. */
  predicate Usable(s: ClientState) {
    && s.process.running && s.session.handshakeComplete && s.session.frameLimit > 0
    && (s.heartbeat.negotiated ==> s.heartbeat.healthy) && !s.session.recoveryPending
  }

  function If(asked: bool, verb: Method): set<Method> {
    if asked then {verb} else {}
  }

  /** The requests of a new connection, each with the capability that it takes. */
  function Asked(capabilities: set<Capability>, recovery: bool): set<Method> {
    If(Capability.RuntimeHealth in capabilities, Method.RuntimeHealth)
    + If(Capability.RuntimeDegradations in capabilities, Method.RuntimeDegradations)
    + If(ModelCatalogReadOnly in capabilities, ModelCatalog)
    + If(ModelCatalogCacheReadOnly in capabilities, ModelCatalogCache)
    + If(ModelCatalogRefreshStatusReadOnly in capabilities, ModelCatalogRefreshStatus)
    + If(ModelProfileReadOnly in capabilities, ModelProfileList)
    + If(recovery && Capability.RuntimeRecoveryStatus in capabilities, Method.RuntimeRecoveryStatus)
    + If(!recovery && Capability.RuntimeProjectionRecoveryStatus in capabilities, Method.RuntimeProjectionRecoveryStatus)
  }

  /** From one state to the next only the request table has changed: these methods have been asked for. */
  predicate AsksFor(s: ClientState, next: ClientState, verbs: set<Method>) {
    && next == s.(requests := next.requests)
    && Numbered(next) && Verbs(next) == Verbs(s) + verbs
    && next.requests.retired == s.requests.retired && s.requests.next <= next.requests.next
  }

  lemma IssuedAsks(s: ClientState, verb: Method)
    requires Numbered(s)
    ensures AsksFor(s, Issued(s, Plain(verb)), {verb})
  {
    var next, id := Issued(s, Plain(verb)), s.requests.next + 1;
    assert next.requests.pending == s.requests.pending[id := Pending(verb, s.process.generation)];
    forall v
      ensures v in Verbs(next) <==> v in Verbs(s) + {verb}
    {
      if v in Verbs(s) {
        var other :| other in s.requests.pending && s.requests.pending[other].verb == v;
        assert other in next.requests.pending && next.requests.pending[other].verb == v;
      }
      assert next.requests.pending[id].verb == verb;
    }
  }

  /** A method that takes this one capability, also under the emergency policy. */
  predicate Takes(verb: Method, capability: Capability, platform: Platform) {
    EmergencyAllowed(verb) && !verb.Initialize? && Required(Plain(verb), platform) == {capability}
  }

  lemma QueryAsks(s: ClientState, env: Environment, capability: Capability, verb: Method)
    requires Usable(s) && Numbered(s) && WritesAll(env) && Takes(verb, capability, env.platform)
    ensures AsksFor(s, Query(s, env, capability, verb), If(capability in s.session.capabilities, verb))
  {
    if capability in s.session.capabilities {
      IssuedAsks(s, verb);
      assert Admitted(s, env.platform, Plain(verb));
      assert Query(s, env, capability, verb) == Issued(s, Plain(verb));
    }
  }

  function Listed(hello: InitializeResult): set<Capability> {
    set i | 0 <= i < |hello.stable| :: hello.stable[i]
  }

  /** One query after others. */
  lemma NextAsks(s: ClientState, s1: ClientState, env: Environment, verbs: set<Method>, capability: Capability, verb: Method)
    requires AsksFor(s, s1, verbs) && Usable(s) && WritesAll(env) && Takes(verb, capability, env.platform)
    ensures AsksFor(s, Query(s1, env, capability, verb), verbs + If(capability in s.session.capabilities, verb))
  {
    QueryAsks(s1, env, capability, verb);
  }

  lemma StatusTakes(platform: Platform)
    ensures Takes(Method.RuntimeHealth, Capability.RuntimeHealth, platform)
    ensures Takes(Method.RuntimeDegradations, Capability.RuntimeDegradations, platform)
  {
  }

  lemma RecoveryStatusTakes(platform: Platform)
    ensures Takes(Method.RuntimeRecoveryStatus, Capability.RuntimeRecoveryStatus, platform)
  {
  }

  lemma ProjectionStatusTakes(platform: Platform)
    ensures Takes(Method.RuntimeProjectionRecoveryStatus, Capability.RuntimeProjectionRecoveryStatus, platform)
  {
  }

  /** The last query asks for one of two states of recovery. */
  function LastQuery(s: ClientState, env: Environment): ClientState {
    if s.session.recoveryMode then Query(s, env, Capability.RuntimeRecoveryStatus, Method.RuntimeRecoveryStatus)
    else Query(s, env, Capability.RuntimeProjectionRecoveryStatus, Method.RuntimeProjectionRecoveryStatus)
  }

  lemma LastAsks(s: ClientState, s6: ClientState, env: Environment, v6: set<Method>)
    requires AsksFor(s, s6, v6) && Usable(s) && WritesAll(env)
    ensures var c, recovery := s.session.capabilities, s.session.recoveryMode;
            AsksFor(s, LastQuery(s6, env),
                    v6 + If(recovery && Capability.RuntimeRecoveryStatus in c, Method.RuntimeRecoveryStatus)
                    + If(!recovery && Capability.RuntimeProjectionRecoveryStatus in c, Method.RuntimeProjectionRecoveryStatus))
  {
    var c := s.session.capabilities;
    if s.session.recoveryMode {
      RecoveryStatusTakes(env.platform);
      NextAsks(s, s6, env, v6, Capability.RuntimeRecoveryStatus, Method.RuntimeRecoveryStatus);
      var v := v6 + If(Capability.RuntimeRecoveryStatus in c, Method.RuntimeRecoveryStatus);
      assert v + {} == v;
    } else {
      ProjectionStatusTakes(env.platform);
      NextAsks(s, s6, env, v6, Capability.RuntimeProjectionRecoveryStatus, Method.RuntimeProjectionRecoveryStatus);
      assert v6 + {} == v6;
    }
  }

  lemma CatalogsTake(platform: Platform)
    ensures Takes(ModelCatalog, ModelCatalogReadOnly, platform)
    ensures Takes(ModelCatalogCache, ModelCatalogCacheReadOnly, platform)
  {
  }

  lemma ModelStatusTakes(platform: Platform)
    ensures Takes(ModelCatalogRefreshStatus, ModelCatalogRefreshStatusReadOnly, platform)
    ensures Takes(ModelProfileList, ModelProfileReadOnly, platform)
  {
  }

  /** The four queries of the model catalog. */
  function CatalogQueries(s: ClientState, env: Environment): ClientState {
    var s1 := Query(s, env, ModelCatalogReadOnly, ModelCatalog);
    var s2 := Query(s1, env, ModelCatalogCacheReadOnly, ModelCatalogCache);
    var s3 := Query(s2, env, ModelCatalogRefreshStatusReadOnly, ModelCatalogRefreshStatus);
    Query(s3, env, ModelProfileReadOnly, ModelProfileList)
  }

  lemma CatalogsAsk(s: ClientState, s2: ClientState, env: Environment, v2: set<Method>)
    requires AsksFor(s, s2, v2) && Usable(s) && WritesAll(env)
    ensures var c := s.session.capabilities;
            AsksFor(s, CatalogQueries(s2, env),
                    v2 + If(ModelCatalogReadOnly in c, ModelCatalog) + If(ModelCatalogCacheReadOnly in c, ModelCatalogCache)
                    + If(ModelCatalogRefreshStatusReadOnly in c, ModelCatalogRefreshStatus)
                    + If(ModelProfileReadOnly in c, ModelProfileList))
  {
    CatalogsTake(env.platform);
    ModelStatusTakes(env.platform);
    var c := s.session.capabilities;
    NextAsks(s, s2, env, v2, ModelCatalogReadOnly, ModelCatalog);
    var s3, v3 := Query(s2, env, ModelCatalogReadOnly, ModelCatalog), v2 + If(ModelCatalogReadOnly in c, ModelCatalog);
    NextAsks(s, s3, env, v3, ModelCatalogCacheReadOnly, ModelCatalogCache);
    var s4, v4 := Query(s3, env, ModelCatalogCacheReadOnly, ModelCatalogCache), v3 + If(ModelCatalogCacheReadOnly in c, ModelCatalogCache);
    NextAsks(s, s4, env, v4, ModelCatalogRefreshStatusReadOnly, ModelCatalogRefreshStatus);
    var s5, v5 := Query(s4, env, ModelCatalogRefreshStatusReadOnly, ModelCatalogRefreshStatus),
                  v4 + If(ModelCatalogRefreshStatusReadOnly in c, ModelCatalogRefreshStatus);
    NextAsks(s, s5, env, v5, ModelProfileReadOnly, ModelProfileList);
  }

  lemma StatusAsks(s: ClientState, env: Environment)
    requires Usable(s) && Numbered(s) && WritesAll(env)
    ensures var c := s.session.capabilities;
            var s1 := Query(s, env, Capability.RuntimeHealth, Method.RuntimeHealth);
            AsksFor(s, Query(s1, env, Capability.RuntimeDegradations, Method.RuntimeDegradations),
                    If(Capability.RuntimeHealth in c, Method.RuntimeHealth)
                    + If(Capability.RuntimeDegradations in c, Method.RuntimeDegradations))
  {
    StatusTakes(env.platform);
    QueryAsks(s, env, Capability.RuntimeHealth, Method.RuntimeHealth);
    NextAsks(s, Query(s, env, Capability.RuntimeHealth, Method.RuntimeHealth), env,
             If(Capability.RuntimeHealth in s.session.capabilities, Method.RuntimeHealth),
             Capability.RuntimeDegradations, Method.RuntimeDegradations);
  }

  lemma StartupIsThree(s: ClientState, env: Environment)
    ensures var s1 := Query(s, env, Capability.RuntimeHealth, Method.RuntimeHealth);
            StartupQueries(s, env)
            == LastQuery(CatalogQueries(Query(s1, env, Capability.RuntimeDegradations, Method.RuntimeDegradations), env), env)
  {
  }

  /** A new connection asks for exactly what its capabilities allow. */
  lemma StartupAsks(s: ClientState, env: Environment)
    requires Usable(s) && Numbered(s) && WritesAll(env)
    ensures AsksFor(s, StartupQueries(s, env), Asked(s.session.capabilities, s.session.recoveryMode))
  {
    StartupIsThree(s, env);
    StatusAsks(s, env);
    var s1 := Query(s, env, Capability.RuntimeHealth, Method.RuntimeHealth);
    ThenAsks(s, Query(s1, env, Capability.RuntimeDegradations, Method.RuntimeDegradations), env);
  }

  lemma ThenAsks(s: ClientState, s2: ClientState, env: Environment)
    requires Usable(s) && WritesAll(env)
    requires AsksFor(s, s2, If(Capability.RuntimeHealth in s.session.capabilities, Method.RuntimeHealth)
                            + If(Capability.RuntimeDegradations in s.session.capabilities, Method.RuntimeDegradations))
    ensures AsksFor(s, LastQuery(CatalogQueries(s2, env), env), Asked(s.session.capabilities, s.session.recoveryMode))
  {
    var c := s.session.capabilities;
    var v2 := If(Capability.RuntimeHealth in c, Method.RuntimeHealth)
              + If(Capability.RuntimeDegradations in c, Method.RuntimeDegradations);
    CatalogsAsk(s, s2, env, v2);
    LastAsks(s, CatalogQueries(s2, env), env,
             v2 + If(ModelCatalogReadOnly in c, ModelCatalog) + If(ModelCatalogCacheReadOnly in c, ModelCatalogCache)
             + If(ModelCatalogRefreshStatusReadOnly in c, ModelCatalogRefreshStatus)
             + If(ModelProfileReadOnly in c, ModelProfileList));
  }

  /** A handshake that has been accepted: its one request is gone, and nothing else has been asked yet. */
  lemma NegotiatedAs(s: ClientState, hello: InitializeResult)
    requires Shakes(s) && ValidInitialize(hello) && Numbered(s)
    ensures var next := Negotiated(s, hello);
            && AsSettled(s, hello, next) && !next.session.recoveryPending && next.heartbeat.id == 0
            && next.requests.next == s.requests.next
            && next.requests.pending == s.requests.pending - {s.session.initializeId}
            && Numbered(next) && FrameLimit(next) > 0
            && next.requests.wire == After(s.requests.wire, Delivered(s.session.initializeId, s.process.generation))
  {
  }

  lemma BeatAsks(s: ClientState, env: Environment)
    requires Usable(s) && Numbered(s) && WritesAll(env) && s.heartbeat.negotiated && s.heartbeat.id == 0
    requires RuntimeHeartbeatOutOfBand in s.session.capabilities && !s.process.emergency
    ensures var next := SendHeartbeat(s, env, false);
            && next == s.(requests := next.requests, heartbeat := next.heartbeat)
            && next.heartbeat.negotiated && next.heartbeat.healthy && next.heartbeat.id == s.requests.next + 1
            && next.heartbeat.nonce == Nonce(s.process.generation, s.heartbeat.counter + 1)
            && next.heartbeat.deadlineId == next.heartbeat.id
            && next.heartbeat.generation == next.heartbeat.deadlineGeneration == s.process.generation
            && next.heartbeat.recoveryAttempt == s.heartbeat.recoveryAttempt
            && next.heartbeat.probes == s.heartbeat.probes
            && Verbs(next) == Verbs(s) + {RuntimeHeartbeat} && Numbered(next)
            && next.requests.pending == s.requests.pending[next.heartbeat.id := Pending(RuntimeHeartbeat, s.process.generation)]
            && next.requests.wire.After? && next.requests.wire.past == s.requests.wire && next.requests.wire.mark.Sent?
  {
    var counted := Counted(s);
    assert Admitted(counted, env.platform, Plain(RuntimeHeartbeat));
    IssuedAsks(counted, RuntimeHeartbeat);
    assert SendHeartbeat(s, env, false) == Beating(Issued(counted, Plain(RuntimeHeartbeat)), s.requests.next + 1, false);
    assert Verbs(counted) == Verbs(s);
    assert Verbs(Beating(Issued(counted, Plain(RuntimeHeartbeat)), s.requests.next + 1, false)) == Verbs(Issued(counted, Plain(RuntimeHeartbeat)));
  }

  lemma NothingIsAsked(s: ClientState)
    requires s.requests.pending == map[]
    ensures Verbs(s) == {}
  {
  }

  lemma SettledBeats(s: ClientState, hello: InitializeResult, env: Environment, s1: ClientState, s2: ClientState)
    requires AsSettled(s, hello, s1) && !s1.session.recoveryPending && s1.heartbeat.id == 0 && s1.requests.pending == map[]
    requires Usable(s1) && Numbered(s1) && WritesAll(env) && s1.heartbeat.negotiated && !s1.process.emergency
    requires RuntimeHeartbeatOutOfBand in s1.session.capabilities && s2 == SendHeartbeat(s1, env, false)
    ensures AsSettled(s, hello, s2) && Usable(s2) && Numbered(s2) && s2.heartbeat.id != 0
    ensures Verbs(s2) == {RuntimeHeartbeat}
  {
    BeatAsks(s1, env);
    NothingIsAsked(s1);
  }

  /** The connection after its first heartbeat, if it has heartbeats at all. */
  lemma FirstBeatAsks(s: ClientState, hello: InitializeResult, env: Environment)
    requires Shakes(s) && ValidInitialize(hello) && Numbered(s) && WritesAll(env)
    requires !(s.process.emergency && RuntimeHeartbeatOutOfBand in hello.stable)
    requires s.requests.pending.Keys == {s.session.initializeId}
    ensures var s1 := Negotiated(s, hello);
            var s2 := if s1.heartbeat.negotiated then SendHeartbeat(s1, env, false) else s1;
            && AsSettled(s, hello, s2) && Usable(s2) && Numbered(s2)
            && (s2.heartbeat.id != 0 <==> s2.heartbeat.negotiated)
            && Verbs(s2) == If(RuntimeHeartbeatOutOfBand in hello.stable, RuntimeHeartbeat)
  {
    NegotiatedAs(s, hello);
    var s1 := Negotiated(s, hello);
    assert s1.requests.pending == map[];
    if s1.heartbeat.negotiated {
      SettledBeats(s, hello, env, s1, SendHeartbeat(s1, env, false));
    } else {
      NothingIsAsked(s1);
    }
  }

  /**
   * A valid answer to the open handshake makes exactly the ready and the recovering backends ready,
   * with the capabilities that it lists; a reconnect has its recovery pending, and any other
   * connection has asked for what its capabilities allow.
   */
  lemma HandshakeSettles(s: ClientState, env: Environment, hello: InitializeResult, valid: bool, echo: Nonce)
    requires Shakes(s) && ValidInitialize(hello) && Numbered(s) && WritesAll(env)
    requires !(s.process.emergency && RuntimeHeartbeatOutOfBand in hello.stable)
    requires s.requests.pending.Keys == {s.session.initializeId}
    ensures var next := Step(s, env, Read([Answering(s, ResultBody(true, valid, echo, hello))]));
            && AsSettled(s, hello, next) && next.session.recoveryPending == s.reconnect.cycleActive
            && Verbs(next) == If(RuntimeHeartbeatOutOfBand in hello.stable, RuntimeHeartbeat)
                              + if s.reconnect.cycleActive then {}
                                else Asked(Listed(hello), hello.status.ReadOnlyRecovery?)
  {
    var body := ResultBody(true, valid, echo, hello);
    AnswerProcessed(s, env, body);
    assert ProcessInitialize(s, env, body) == AcceptInitialize(s, env, hello);
    FirstBeatAsks(s, hello, env);
    SettledAsks(s, hello, env);
  }

  lemma SettledAsks(s: ClientState, hello: InitializeResult, env: Environment)
    requires WritesAll(env)
    requires var s1 := Negotiated(s, hello);
             var s2 := if s1.heartbeat.negotiated then SendHeartbeat(s1, env, false) else s1;
             && AsSettled(s, hello, s2) && Usable(s2) && Numbered(s2)
             && Verbs(s2) == If(RuntimeHeartbeatOutOfBand in hello.stable, RuntimeHeartbeat)
    ensures var next := AcceptInitialize(s, env, hello);
            && AsSettled(s, hello, next) && next.session.recoveryPending == s.reconnect.cycleActive
            && Verbs(next) == If(RuntimeHeartbeatOutOfBand in hello.stable, RuntimeHeartbeat)
                              + if s.reconnect.cycleActive then {}
                                else Asked(Listed(hello), hello.status.ReadOnlyRecovery?)
  {
    var s1 := Negotiated(s, hello);
    var s2 := if s1.heartbeat.negotiated then SendHeartbeat(s1, env, false) else s1;
    StartupAsks(s2, env);
    assert s2.session.capabilities == Listed(hello);
    var next := AcceptInitialize(s, env, hello);
    if s.reconnect.cycleActive {
      assert next == s2.(session := s2.session.(recoveryPending := true));
      assert Verbs(next) == Verbs(s2);
      assert Verbs(s2) + {} == Verbs(s2);
    } else {
      assert next == StartupQueries(s2, env);
    }
  }

  /** Any other answer is no handshake: the connection is closed for good and its request reported. */
  lemma HandshakeRefused(s: ClientState, env: Environment, body: Body)
    requires Shakes(s)
    requires body.ResultBody? && body.typed ==> !ValidInitialize(body.hello)
    ensures var next := Step(s, env, Read([Answering(s, body)]));
            && next.session == CLOSED_SESSION && next.process.suppressed && next.process.discardOutput
            && next.process.running && next.reconnect.state == (if s.reconnect.cycleActive then Exhausted else s.reconnect.state)
            && s.session.initializeId !in next.requests.pending
            && Reports(next, s.session.initializeId) == Reports(s, s.session.initializeId) + 1
  {
    AnswerProcessed(s, env, body);
    assert Step(s, env, Read([Answering(s, body)])) == RejectInitialize(s);
  }

  // ---------------------------------------------------------------------
  // Results and errors

  /** A request that the connection waits for. */
  predicate Awaited(s: ClientState, id: nat) {
    && s.session.handshakeComplete && s.session.frameLimit > 0 && !s.process.discardOutput
    && id != 0 && id in s.requests.pending && s.requests.pending[id].generation == s.process.generation
    && id !in s.requests.retired && !s.requests.pending[id].verb.Initialize?
  }

  /** One request is answered, and nothing else changes. */
  predicate Delivers(s: ClientState, next: ClientState, id: nat) {
    next == s.(requests := s.requests.(
                 pending := s.requests.pending - {id},
                 wire := After(s.requests.wire, Delivered(id, s.process.generation))))
  }

  /** The session is over, its output is not looked at any more, and everything pending is reported. */
  predicate Closes(s: ClientState, next: ClientState, id: nat) {
    && next.session == CLOSED_SESSION && next.process.suppressed && next.process.discardOutput
    && next.process.running == s.process.running && next.process.generation == s.process.generation
    && !next.heartbeat.negotiated && next.heartbeat.id == 0 && !next.reconnect.timerActive && !next.reconnect.cycleActive
    && next.reconnect.state == (if s.reconnect.cycleActive then Exhausted else s.reconnect.state)
    && next.requests.pending == map[] && FailsPending(s, next, id)
  }

  lemma RejectionCloses(s: ClientState, env: Environment, id: nat)
    requires id > 0
    ensures Closes(s, RejectProtocol(s, env), id)
  {
    var torn := Discard(Suppress(s));
    ClearedPending(torn);
    var cleared := if s.reconnect.cycleActive then SetState(Clear(torn), Exhausted) else Clear(torn);
    FailedAll(cleared, env, id);
    assert RejectProtocol(s, env) == FailPending(cleared, env);
  }

  /** The methods whose results are looked into: their results are delivered only if they are sound. */
  const LOOKED_INTO: set<Method> :=
    {TimelineSubscribe, TimelineSubscriptionSync, TimelineSubscriptionSnapshot, TimelineSubscriptionActivate, TurnStart,
     Method.SessionMutationAcknowledgements, MutationAcknowledgementConsume, ArtifactReadCommandOutputPage}

  lemma CheckedAreLookedInto(verb: Method)
    ensures ResultIsChecked(verb) <==> verb in LOOKED_INTO
  {
  }

  lemma AwaitedIsDispatched(s: ClientState, env: Environment, id: nat, body: Body)
    requires Awaited(s, id)
    ensures Step(s, env, Read([Response(id, Matched, body)]))
         == DispatchLate(s, env, id, s.requests.pending[id].verb, body)
  {
    var frame := Response(id, Matched, body);
    assert PendingCurrent(s, id);
    assert ProcessFrame(s, env, frame) == DispatchLate(s, env, id, s.requests.pending[id].verb, body);
    OneFrameRead(s, env, frame);
  }

  /** The result of an awaited request is delivered if it is sound; otherwise it closes the connection. */
  lemma ResultIsDelivered(s: ClientState, env: Environment, id: nat, body: Body)
    requires Awaited(s, id) && !s.requests.pending[id].verb.RuntimeHeartbeat? && body.ResultBody?
    ensures var next := Step(s, env, Read([Response(id, Matched, body)]));
            if body.typed && (s.requests.pending[id].verb in LOOKED_INTO ==> body.valid) then Delivers(s, next, id)
            else Closes(s, next, id)
  {
    AwaitedIsDispatched(s, env, id, body);
    CheckedAreLookedInto(s.requests.pending[id].verb);
    RejectionCloses(s, env, id);
    assert DispatchLate(s, env, id, s.requests.pending[id].verb, body)
        == ProcessResult(s, env, id, s.requests.pending[id].verb, body);
  }

  /** So is an error, but for a malformed one and for the data of a subscription or a retention gap. */
  lemma ErrorIsDelivered(s: ClientState, env: Environment, id: nat, body: Body)
    requires Awaited(s, id) && !s.requests.pending[id].verb.RuntimeHeartbeat? && body.ErrorBody?
    ensures var next := Step(s, env, Read([Response(id, Matched, body)]));
            var verb := s.requests.pending[id].verb;
            var dataMatter := verb in {TimelineSubscribe, TimelineSubscriptionSync, TimelineSubscriptionSnapshot,
                                       TimelineSubscriptionActivate} || (verb.TimelineSync? && body.retentionGap);
            if body.wellFormed && (dataMatter ==> body.dataValid) then Delivers(s, next, id) else Closes(s, next, id)
  {
    AwaitedIsDispatched(s, env, id, body);
    RejectionCloses(s, env, id);
    assert DispatchLate(s, env, id, s.requests.pending[id].verb, body)
        == ProcessError(s, env, id, s.requests.pending[id].verb, body);
  }

  /** A response to a request that is not pending changes nothing. */
  lemma StrangerIsIgnored(s: ClientState, env: Environment, id: nat, decoding: Decoding, body: Body)
    requires FrameLimit(s) > 0 && !decoding.Rejected? && (id == 0 || id !in s.requests.pending)
    ensures Step(s, env, Read([Response(id, decoding, body)])) == s
  {
    if !s.process.discardOutput {
      OneFrameRead(s, env, Response(id, decoding, body));
    }
  }

  // ---------------------------------------------------------------------
  // Heartbeats

  /** The heartbeat timer of a healthy connection writes one heartbeat, and one only. */
  lemma TimerBeats(s: ClientState, env: Environment)
    requires Usable(s) && Numbered(s) && WritesAll(env) && s.heartbeat.negotiated && !s.process.emergency
    requires RuntimeHeartbeatOutOfBand in s.session.capabilities
    ensures var next := Step(s, env, HeartbeatTimer);
            if s.heartbeat.id != 0 then next == s
            else
              && next == s.(requests := next.requests, heartbeat := next.heartbeat)
              && next.heartbeat.id == s.requests.next + 1 && next.heartbeat.healthy
              && next.heartbeat.nonce == Nonce(s.process.generation, s.heartbeat.counter + 1)
              && next.requests.pending
                 == s.requests.pending[next.heartbeat.id := Pending(RuntimeHeartbeat, s.process.generation)]
  {
    if s.heartbeat.id == 0 {
      BeatAsks(s, env);
    }
  }

  /** The answer to the outstanding heartbeat, with its nonce, makes the connection healthy; another one closes it. */
  lemma AnswerHeals(s: ClientState, env: Environment, body: Body)
    requires Awaited(s, s.heartbeat.id) && s.requests.pending[s.heartbeat.id].verb.RuntimeHeartbeat?
    requires s.heartbeat.generation == s.process.generation && body.ResultBody? && body.typed
    ensures var id := s.heartbeat.id;
            var next := Step(s, env, Read([Response(id, Matched, body)]));
            if body.valid && body.echo == s.heartbeat.nonce then
              && next == s.(requests := next.requests, heartbeat := next.heartbeat)
              && next.heartbeat.healthy && next.heartbeat.id == 0 && next.heartbeat.recoveryAttempt == 0
              && next.requests.pending == s.requests.pending - {id} && Reports(next, id) == Reports(s, id) + 1
            else Closes(s, next, id)
  {
    AwaitedIsDispatched(s, env, s.heartbeat.id, body);
    RejectionCloses(s, env, s.heartbeat.id);
    assert DispatchLate(s, env, s.heartbeat.id, RuntimeHeartbeat, body) == ProcessHeartbeat(s, env, s.heartbeat.id, body);
  }

  /** An outstanding heartbeat of the current generation. */
  predicate Overdue(s: ClientState) {
    && s.heartbeat.negotiated && s.session.handshakeComplete && s.heartbeat.id != 0
    && s.heartbeat.deadlineId == s.heartbeat.id
    && s.heartbeat.generation == s.heartbeat.deadlineGeneration == s.process.generation
  }

  /** The control requests that stay open when the connection turns unhealthy. */
  const CONTROLS: set<Method> := {Initialize, Shutdown, RuntimeHeartbeat, TurnCancel, TurnSteer, TerminalStopUser}

  /** The requests of the connection that would keep a subscription alive. */
  predicate Subscribing(s: ClientState, id: nat) {
    && id in s.requests.pending && s.requests.pending[id].generation == s.process.generation
    && s.requests.pending[id].verb in {TimelineSubscribe, TimelineSubscriptionSync, TimelineSubscriptionSnapshot,
                                       TimelineSubscriptionActivate}
  }

  lemma ControlsAre(verb: Method)
    ensures IsLivenessControl(verb) <==> verb in CONTROLS
  {
  }

  /** The ordinary requests fail, and each of them is reported. */
  lemma OrdinaryFail(s: ClientState, env: Environment, id: nat)
    requires id > 0
    ensures var next := FailOrdinary(s, env);
            && next == s.(requests := next.requests)
            && (id in next.requests.pending <==> id in s.requests.pending && s.requests.pending[id].verb in CONTROLS)
            && Reports(next, id)
               == Reports(s, id) + if id in s.requests.pending && s.requests.pending[id].verb !in CONTROLS then 1 else 0
  {
    if id in s.requests.pending {
      ControlsAre(s.requests.pending[id].verb);
    }
    RetireAllTouches(s.requests.(pending := s.requests.pending - Ordinary(s.requests.pending)),
                     env.order(Ordinary(s.requests.pending)));
  }

  /**
   * A heartbeat that stays unanswered makes the connection unhealthy: its ordinary requests fail,
   * the control requests stay open, and a probe is scheduled as long as one of the three is left.
   */
  lemma DeadlineMarks(s: ClientState, env: Environment, id: nat)
    requires Overdue(s) && id > 0 && id != s.heartbeat.id && forall other :: !Subscribing(s, other)
    requires s.process.running && !s.process.stopping && !s.process.suppressed
    ensures var next := Step(s, env, DeadlineTimer);
            && next.session == s.session && next.process == s.process && next.reconnect == s.reconnect
            && !next.heartbeat.healthy && next.heartbeat.negotiated && next.heartbeat.id == 0
            && (id in next.requests.pending <==> id in s.requests.pending && s.requests.pending[id].verb in CONTROLS)
            && Reports(next, id)
               == Reports(s, id) + (if id in s.requests.pending && s.requests.pending[id].verb !in CONTROLS then 1 else 0)
            && if s.heartbeat.recoveryAttempt < 3 then
                 && next.heartbeat.recoveryAttempt == s.heartbeat.recoveryAttempt + 1
                 && next.heartbeat.probes
                    == s.heartbeat.probes + multiset{Probe(s.heartbeat.recoveryAttempt + 1, s.process.generation)}
               else next.heartbeat.recoveryAttempt == s.heartbeat.recoveryAttempt && next.heartbeat.probes == s.heartbeat.probes
  {
    assert !SubscriptionPending(s) by {
      forall other | other in s.requests.pending
        ensures !(s.requests.pending[other].generation == s.process.generation && IsSubscription(s.requests.pending[other].verb))
      {
        assert !Subscribing(s, other);
      }
    }
    OrdinaryFail(Unhealthy(Unbeaten(s)), env, id);
    assert Step(s, env, DeadlineTimer) == ScheduleProbe(FailOrdinary(Unhealthy(Unbeaten(s)), env));
  }

  /**
   * With a subscription pending the whole generation is given up: it is terminated for a reconnect
   * while an attempt is left, and for good otherwise.
   */
  lemma DeadlineAbandons(s: ClientState, env: Environment, other: nat)
    requires Overdue(s) && Subscribing(s, other) && s.process.running && !s.process.stopping && !s.process.suppressed
    ensures var next := Step(s, env, DeadlineTimer);
            && next.session == CLOSED_SESSION && next.requests.pending == map[] && next.process.discardOutput
            && next.process.running && next.process.generation == s.process.generation
            && if s.reconnect.attempt < |s.reconnect.backoff| then
                 && next.reconnect.state.Restarting? && next.reconnect.cycleActive && !next.process.suppressed
                 && next.reconnect.attempt == s.reconnect.attempt + 1
                 && next.reconnect.terminationPending && next.reconnect.terminationGeneration == s.process.generation
               else next.reconnect.state.Exhausted? && next.process.suppressed && !next.reconnect.terminationPending
  {
    assert SubscriptionPending(s);
    var s1 := Discard(Unhealthy(Unbeaten(s)));
    FailedAll(Clear(Owing(s1)), env, other);
    FailedAll(Clear(Suppress(s1)), env, other);
    assert Step(s, env, DeadlineTimer) == AbandonAmbiguous(Unbeaten(s), env);
  }

  /** A probe that is still current writes a heartbeat on the unhealthy connection. */
  lemma ProbeBeats(s: ClientState, env: Environment)
    requires s.process.running && s.session.handshakeComplete && s.session.frameLimit > 0 && WritesAll(env)
    requires !s.process.stopping && !s.process.suppressed && !s.process.emergency && !s.session.recoveryPending
    requires s.heartbeat.negotiated && !s.heartbeat.healthy && s.heartbeat.id == 0
    requires RuntimeHeartbeatOutOfBand in s.session.capabilities
    requires Probe(s.heartbeat.recoveryAttempt, s.process.generation) in s.heartbeat.probes
    ensures var probe := Probe(s.heartbeat.recoveryAttempt, s.process.generation);
            var next := Step(s, env, ProbeTimer(probe));
            && next.session == s.session && next.process == s.process && next.reconnect == s.reconnect
            && next.heartbeat.id == s.requests.next + 1 && !next.heartbeat.healthy
            && next.heartbeat.probes == s.heartbeat.probes - multiset{probe}
            && next.requests.pending
               == s.requests.pending[next.heartbeat.id := Pending(RuntimeHeartbeat, s.process.generation)]
  {
    var probe := Probe(s.heartbeat.recoveryAttempt, s.process.generation);
    var s1 := s.(heartbeat := s.heartbeat.(probes := s.heartbeat.probes - multiset{probe}));
    var counted := Counted(s1);
    assert Admitted(counted, env.platform, Plain(RuntimeHeartbeat));
    assert SendHeartbeat(s1, env, true) == Beating(Issued(counted, Plain(RuntimeHeartbeat)), s.requests.next + 1, true);
    assert Step(s, env, ProbeTimer(probe)) == SendHeartbeat(s1, env, true);
  }

  // ---------------------------------------------------------------------
  // Recoveries, stops and timers

  lemma RecoveryIsStep(s: ClientState, env: Environment, generation: nat)
    ensures Step(s, env, CompleteRecovery(generation, true)) == OnCompleteRecovery(s, env, generation, true)
  {
  }

  lemma RecoveryAsks(s: ClientState, env: Environment, generation: nat)
    requires CanComplete(s, generation) && s.session.ready && IsHealthy(s)
    ensures OnCompleteRecovery(s, env, generation, true) == StartupQueries(Recovered(s), env)
  {
  }

  lemma RecoveredIsUsable(s: ClientState, recovered: ClientState)
    requires s.session.recoveryPending && s.session.handshakeComplete && s.session.ready && s.session.frameLimit > 0
    requires s.process.running && s.process.generation != 0 && (s.heartbeat.negotiated ==> s.heartbeat.healthy)
    requires Numbered(s) && recovered == Recovered(s)
    ensures Usable(recovered) && Numbered(recovered) && Verbs(recovered) == Verbs(s)
    ensures IsReady(recovered) && recovered.reconnect.state.Idle? && !recovered.reconnect.cycleActive
    ensures recovered.reconnect.attempt == s.reconnect.attempt
    ensures s.reconnect.attempt > 0 ==> recovered.reconnect.stabilityGeneration == s.process.generation
    ensures recovered.session.capabilities == s.session.capabilities && recovered.session.recoveryMode == s.session.recoveryMode
  {
  }

  /** A completed recovery makes the connection usable, and it asks for what its capabilities allow. */
  lemma RecoveryCompletes(s: ClientState, env: Environment)
    requires s.session.recoveryPending && s.session.handshakeComplete && s.session.ready && s.session.frameLimit > 0
    requires s.process.running && s.process.generation != 0 && (s.heartbeat.negotiated ==> s.heartbeat.healthy)
    requires Numbered(s) && WritesAll(env)
    ensures var next := Step(s, env, CompleteRecovery(s.process.generation, true));
            && IsReady(next) && next.reconnect.state.Idle? && !next.reconnect.cycleActive
            && next.reconnect.attempt == s.reconnect.attempt
            && (s.reconnect.attempt > 0 ==> next.reconnect.stabilityGeneration == s.process.generation)
            && Verbs(next) == Verbs(s) + Asked(s.session.capabilities, s.session.recoveryMode)
  {
    var recovered := Recovered(s);
    RecoveredIsUsable(s, recovered);
    RecoveryIsStep(s, env, s.process.generation);
    RecoveryAsks(s, env, s.process.generation);
    StartupAsks(recovered, env);
  }

  /** The report of a recovery for another generation, or for none, changes nothing. */
  lemma StrangeRecoveryIsIgnored(s: ClientState, env: Environment, generation: nat, success: bool)
    requires !s.session.recoveryPending || generation == 0 || generation != s.process.generation
             || !s.session.handshakeComplete || !s.process.running
    ensures Step(s, env, CompleteRecovery(generation, success)) == s
  {
  }

  /** stop() of a connected runtime writes shutdown; without a session nothing is written. */
  lemma StopShutsDown(s: ClientState, env: Environment)
    requires Numbered(s) && WritesAll(env) && (s.session.handshakeComplete ==> s.session.frameLimit > 0)
    ensures var next := Step(s, env, Stop);
            && next.process == s.process.(suppressed := true, terminationPending := false, stopping := s.process.running)
            && next.reconnect.state.Idle? && !next.reconnect.timerActive && !next.reconnect.cycleActive
            && next.session == s.session && next.heartbeat == s.heartbeat
            && Verbs(next) == Verbs(s) + If(s.process.running && s.session.handshakeComplete, Shutdown)
  {
    var stopping := Stopping(s);
    assert Verbs(stopping) == Verbs(s);
    if s.process.running && s.session.handshakeComplete {
      IssuedAsks(stopping, Shutdown);
      assert Admitted(stopping, env.platform, Plain(Shutdown));
      assert Step(s, env, Stop) == Issued(stopping, Plain(Shutdown));
    } else {
      assert Verbs(s) + {} == Verbs(s);
    }
  }

  /** The stability timer gives the attempts back exactly to a ready, idle connection of the generation it was set for. */
  lemma StabilityGivesBack(s: ClientState, env: Environment)
    ensures var next := Step(s, env, StabilityTimer);
            if && s.reconnect.stabilityGeneration == s.process.generation != 0 && s.reconnect.state.Idle?
               && s.session.ready && !s.session.recoveryPending && (s.heartbeat.negotiated ==> s.heartbeat.healthy)
               && s.reconnect.attempt > 0
            then next == s.(reconnect := s.reconnect.(
                              stabilityGeneration := 0, attempt := 0, relaunches := Reset(s.reconnect.relaunches)))
            else next == s
  {
  }

  /** The startup timer gives up exactly a running generation that is not ready and that nobody stops. */
  lemma StartupTimesOut(s: ClientState, env: Environment, id: nat)
    requires id > 0
    ensures var next := Step(s, env, StartupTimer);
            if && !s.session.ready && s.session.startupGeneration == s.process.generation && s.process.running
               && !s.process.stopping && !s.process.suppressed
            then
              && next.session == CLOSED_SESSION && next.requests.pending == map[] && FailsPending(s, next, id)
              && next.process.suppressed && next.process.terminationPending && next.reconnect.state.Exhausted?
            else next == s
  {
    var torn := Suppress(Discard(s));
    ClearedPending(torn);
    FailedAll(Clear(torn), env, id);
  }

  /**
   * A change of the emergency policy restarts a runtime that was started under the other one: it is
   * asked to shut down, and everything pending fails. Otherwise it only ends a wait for a relaunch.
   */
  lemma PolicyChanges(s: ClientState, env: Environment, disabled: bool, id: nat)
    requires WritesAll(env) && (s.session.handshakeComplete ==> s.session.frameLimit > 0)
    requires 0 < id <= s.requests.next
    ensures var next := Step(s, env, SetEmergencyDisabled(disabled));
            if s.process.emergency == disabled then next == s
            else if !s.process.running || s.process.startedEmergency == disabled then
              next == s.(process := s.process.(emergency := disabled),
                         reconnect := s.reconnect.(timerActive := false,
                                                   state := if s.reconnect.state.Waiting? then Idle else s.reconnect.state))
            else
              && next.process == s.process.(emergency := disabled, policyRestart := true, stopping := true, suppressed := true)
              && next.session == s.session && next.heartbeat == s.heartbeat
              && next.reconnect == s.reconnect.(timerActive := false, state := Idle)
              && Reports(next, id) == Reports(s, id) + (if id in s.requests.pending then 1 else 0)
              && Verbs(next) == If(s.session.handshakeComplete, Shutdown)
  {
    if s.process.emergency != disabled && s.process.running && s.process.startedEmergency != disabled {
      var p := Policy(s, disabled);
      RestartFails(p, env, id);
      var s1 := RestartForPolicy(p, env);
      assert Verbs(s1) == {};
      if s.session.handshakeComplete {
        IssuedAsks(s1, Shutdown);
        assert Admitted(s1, env.platform, Plain(Shutdown));
        assert Step(s, env, SetEmergencyDisabled(disabled)) == Issued(s1, Plain(Shutdown));
      }
    }
  }

  lemma RestartFails(s: ClientState, env: Environment, id: nat)
    requires id > 0
    ensures var next := RestartForPolicy(s, env);
            && next == s.(process := s.process.(policyRestart := true, stopping := true, suppressed := true),
                          reconnect := s.reconnect.(state := Idle), requests := next.requests)
            && next.requests.pending == map[] && next.requests.next == s.requests.next
            && Reports(next, id) == Reports(s, id) + if id in s.requests.pending then 1 else 0
  {
    var stopping := SetState(s.(process := s.process.(policyRestart := true, stopping := true, suppressed := true)), Idle);
    var marked := stopping.(requests := Report(stopping.requests, PolicyChanged(stopping.session.initializeId)));
    FailedAll(marked, env, id);
    assert Reports(marked, id) == Reports(s, id);
    RetireAllTouches(marked.requests.(pending := map[]), env.order(marked.requests.pending.Keys));
    assert marked.requests.pending - marked.requests.pending.Keys == map[];
  }

  /** An error of a running process ends its session for good, an error of one that is down leads to the next attempt. */
  lemma ErrorEndsOrReschedules(s: ClientState, env: Environment, id: nat)
    requires !s.process.stopping && !s.process.suppressed && !s.reconnect.terminationPending && id > 0
    requires !s.reconnect.state.Waiting?
    ensures Step(s, env, ErrorOccurred(true)) == s
    ensures var next := Step(s, env, ErrorOccurred(false));
            && next.session == CLOSED_SESSION && next.requests.pending == map[] && FailsPending(s, next, id)
            && if s.process.running then next.process.suppressed && next.reconnect.state.Exhausted?
               else Reschedules(s, next)
  {
    var torn := Suppress(s);
    ClearedPending(torn);
    FailedAll(Clear(torn), env, id);
    var scheduled := ScheduleReconnect(s);
    ClearedPending(scheduled);
    FailedAll(Clear(scheduled), env, id);
  }

  /** Abandoning a running connection terminates its generation, for a reconnect while an attempt is left. */
  lemma AbandonTerminates(s: ClientState, env: Environment, id: nat)
    requires id > 0 && s.process.running && !s.process.stopping && !s.process.suppressed
    requires !s.reconnect.terminationPending && !s.process.terminationPending
    ensures var next := Step(s, env, Abandon);
            && next.session == CLOSED_SESSION && next.requests.pending == map[] && FailsPending(s, next, id)
            && next.process.running && next.process.discardOutput
            && if s.reconnect.attempt < |s.reconnect.backoff| then
                 && next.reconnect.state.Restarting? && next.reconnect.cycleActive && !next.process.suppressed
                 && next.reconnect.attempt == s.reconnect.attempt + 1
                 && next.reconnect.terminationPending && next.reconnect.terminationGeneration == s.process.generation
               else next.reconnect.state.Exhausted? && next.process.suppressed
  {
    var s1 := Discard(Unhealthy(s));
    ClearedPending(Owing(s1));
    FailedAll(Clear(Owing(s1)), env, id);
    ClearedPending(Suppress(s1));
    FailedAll(Clear(Suppress(s1)), env, id);
    assert Step(s, env, Abandon) == AbandonAmbiguous(s, env);
  }
}
