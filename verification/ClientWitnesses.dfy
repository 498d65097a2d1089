// Concrete runs of the runtime client: each shows that a bound is attained or that a plausible
// claim about the client fails.

module ClientWitnesses {
  import opened Capabilities
  import opened ClientState
  import opened ClientRequests
  import opened ClientInvariants
  import opened ClientRuns
  import opened ClientReadiness
  import opened ClientGuarantees
  import opened ClientReports
  import opened ClientExchanges

  // ---------------------------------------------------------------------
  // An environment in which everything can be written

  ghost function Listing(keys: set<nat>): seq<nat>
    decreases |keys|
  {
    if keys == {} then []
    else
      var key :| key in keys;
      [key] + Listing(keys - {key})
  }

  lemma {:induction false} ListingEnumerates(keys: set<nat>)
    ensures Enumerates(Listing(keys), keys)
    decreases |keys|
  {
    if keys != {} {
      var key := Listing(keys)[0];
      var rest := keys - {key};
      assert Listing(keys) == [key] + Listing(rest);
      ListingEnumerates(rest);
    }
  }

  /** Every write succeeds, and every launch ends in the given way. */
  ghost function Friendly(launch: LaunchOutcome): Environment {
    Environment(_ => Written, true, launch, keys => Listing(keys), MacOs)
  }

  lemma FriendlyIsFair(launch: LaunchOutcome)
    ensures Fair(Friendly(launch))
  {
    forall keys: set<nat>
      ensures Enumerates(Friendly(launch).order(keys), keys)
    {
      ListingEnumerates(keys);
    }
  }

  // ---------------------------------------------------------------------
  // Runs step by step

  ghost function On(event: Event, launch: LaunchOutcome): Occurrence {
    Occurrence(event, Friendly(launch))
  }

  lemma RunOfTwo(s: ClientState, a: Occurrence, b: Occurrence)
    ensures Run(s, [a, b]) == Step(Step(s, a.env, a.event), b.env, b.event)
  {
    assert [a, b][1..] == [b] && [b][1..] == [];
    var s1 := Step(s, a.env, a.event);
    assert Run(s1, [b]) == Run(Step(s1, b.env, b.event), []);
  }

  lemma RunOfThree(s: ClientState, a: Occurrence, b: Occurrence, c: Occurrence)
    ensures Run(s, [a, b, c]) == Step(Step(Step(s, a.env, a.event), b.env, b.event), c.env, c.event)
  {
    assert [a, b, c][1..] == [b, c];
    RunOfTwo(Step(s, a.env, a.event), b, c);
  }

  lemma RunOfFour(s: ClientState, a: Occurrence, b: Occurrence, c: Occurrence, d: Occurrence)
    ensures Run(s, [a, b, c, d]) == Step(Run(s, [a, b, c]), d.env, d.event)
  {
    assert [a, b, c, d][1..] == [b, c, d];
    var s1 := Step(s, a.env, a.event);
    RunOfThree(s1, b, c, d);
    RunOfThree(s, a, b, c);
  }

  // ---------------------------------------------------------------------
  // An id that is reported twice

  /** Start, a change of policy during the handshake, one line that does not decode. */
  ghost function InterruptedRun(): seq<Occurrence> {
    [On(Start, Started(true)), On(SetEmergencyDisabled(true), Started(true)), On(Read([Undecodable]), Started(true))]
  }

  lemma StartOpensHandshake(env: Environment)
    requires env.launch == Started(true) && env.write(1) == Written
    ensures var s := Step(Initial([]), env, Start);
            && s.session.initializeId == 1 && 1 in s.requests.pending && !s.session.handshakeComplete
            && s.process.running && !s.process.emergency && !s.process.startedEmergency && !s.process.discardOutput
  {
  }

  lemma GarbageReportsAgain(s: ClientState, env: Environment, id: nat)
    requires Fair(env) && Inv(s) && IsInterrupted(s, id) && !s.process.discardOutput
    ensures Reports(Step(s, env, Read([Undecodable])), id) == Reports(s, id) + 1
  {
    assert HasFault([Undecodable]) by {
      assert Faulty([Undecodable][0]);
    }
    InterruptedStep(s, env, Read([Undecodable]), id);
  }

  lemma InterruptedAndHit(s: ClientState, env: Environment)
    requires Fair(env) && Inv(s) && s.session.initializeId in s.requests.pending && s.session.initializeId != 0
    requires s.process.running && !s.process.emergency && !s.process.startedEmergency && !s.process.discardOutput
    ensures Reports(Run(s, [Occurrence(SetEmergencyDisabled(true), env), Occurrence(Read([Undecodable]), env)]),
                    s.session.initializeId) == 2
  {
    RunOfTwo(s, Occurrence(SetEmergencyDisabled(true), env), Occurrence(Read([Undecodable]), env));
    PolicyChangeInterrupts(s, env, true);
    StepKeeps(s, env, SetEmergencyDisabled(true));
    GarbageReportsAgain(Step(s, env, SetEmergencyDisabled(true)), env, s.session.initializeId);
  }

  lemma InterruptedRunIsFair()
    ensures FairRun(InterruptedRun())
  {
    FriendlyIsFair(Started(true));
  }

  lemma ReportedTwice()
    ensures Reports(Run(Initial([]), InterruptedRun()), 1) == 2
  {
    var env := Friendly(Started(true));
    FriendlyIsFair(Started(true));
    assert InterruptedRun()[1..]
        == [Occurrence(SetEmergencyDisabled(true), env), Occurrence(Read([Undecodable]), env)];
    InitialOk([]);
    StartOpensHandshake(env);
    StepKeeps(Initial([]), env, Start);
    InterruptedAndHit(Step(Initial([]), env, Start), env);
  }

  // ---------------------------------------------------------------------
  // Accepted handshakes

  /** What a preview runtime answers to initialize, with or without heartbeats. */
  function Hello(beating: bool): InitializeResult {
    InitializeResult(true, PreviewAdapter, true, Status.Ready,
                     [RuntimePreview, PermissionReadOnly] + if beating then [RuntimeHeartbeatOutOfBand] else [],
                     MAXIMUM_FRAME_BYTES)
  }

  function Answering(beating: bool): Frame {
    Response(1, Matched, ResultBody(true, true, NoNonce, Hello(beating)))
  }

  lemma HelloCapabilities(beating: bool)
    ensures Stable(Hello(beating)) == {RuntimePreview, PermissionReadOnly} + if beating then {RuntimeHeartbeatOutOfBand} else {}
    ensures RuntimeHeartbeatOutOfBand in Hello(beating).stable <==> beating
    ensures ValidCapabilityArray(Hello(beating).stable)
  {
    assert Hello(beating).stable
        == if beating then [RuntimePreview, PermissionReadOnly, RuntimeHeartbeatOutOfBand]
           else [RuntimePreview, PermissionReadOnly];
  }

  lemma PreviewBackend(negotiated: set<Capability>)
    requires {RuntimePreview, PermissionReadOnly} <= negotiated
    requires negotiated <= {RuntimePreview, PermissionReadOnly, RuntimeHeartbeatOutOfBand}
    ensures BackendMarkers(negotiated) == 1 && negotiated !! NOT_IN_PREVIEW
  {
  }

  lemma HelloIsValid(beating: bool)
    ensures ValidInitialize(Hello(beating)) && (RuntimeHeartbeatOutOfBand in Hello(beating).stable <==> beating)
  {
    HelloCapabilities(beating);
    PreviewBackend(Stable(Hello(beating)));
  }

  /** The first request of the client is its open handshake. */
  predicate Shaking(s: ClientState) {
    && s.session.initializeId == 1 && s.session.initializeGeneration == s.process.generation
    && 1 in s.requests.pending && s.requests.pending[1] == Pending(Initialize, s.process.generation)
    && 1 !in s.requests.retired && !s.session.handshakeComplete && !s.session.recoveryPending
    && s.process.running && !s.process.discardOutput && s.heartbeat.id == 0
  }

  lemma AnswerDispatched(s: ClientState, env: Environment, body: Body)
    requires Shaking(s) && body.ResultBody?
    ensures ProcessFrame(s, env, Response(1, Matched, body)) == ProcessInitialize(s, env, body)
  {
    assert PendingCurrent(s, 1);
    assert ProcessFrame(s, env, Response(1, Matched, body)) == DispatchEarly(s, env, 1, Initialize, body);
  }

  lemma ValidIsAccepted(s: ClientState, env: Environment, body: Body)
    requires body.ResultBody? && body.typed && ValidInitialize(body.hello)
    ensures ProcessInitialize(s, env, body) == AcceptInitialize(s, env, body.hello)
  {
  }

  lemma AnswerIsAccepted(s: ClientState, env: Environment, beating: bool)
    requires Shaking(s)
    ensures Step(s, env, Read([Answering(beating)])) == AcceptInitialize(s, env, Hello(beating))
  {
    OneFrameRead(s, env, Answering(beating));
    AnswerDispatched(s, env, Answering(beating).body);
    HelloIsValid(beating);
    ValidIsAccepted(s, env, Answering(beating).body);
  }

  // ---------------------------------------------------------------------
  // Heartbeats under the emergency policy

  ghost function EmergencyRun(): seq<Occurrence> {
    [On(SetEmergencyDisabled(true), Started(true)), On(Start, Started(true)), On(Read([Answering(true)]), Started(true))]
  }

  lemma EmergencyStart(env: Environment)
    requires env.launch == Started(true) && env.write(1) == Written
    ensures var s := Step(Step(Initial([]), env, SetEmergencyDisabled(true)), env, Start);
            Shaking(s) && s.process.emergency && !s.process.suppressed
  {
  }

  /** The first heartbeat is not admitted, and its refusal closes the session that was accepted. */
  lemma EmergencyAccept(s: ClientState, env: Environment)
    requires Shaking(s) && s.process.emergency && !s.process.suppressed && env.notifies
    ensures StageOf(AcceptInitialize(s, env, Hello(true))) == Fallen(Accepted(StageOf(s)))
  {
    HelloIsValid(true);
    FirstHeartbeat(s, env, Hello(true));
    var s1 := Negotiated(s, Hello(true));
    NegotiatedStage(s, Hello(true));
    assert s1.heartbeat.negotiated;
    SendHeartbeatStage(s1, env, false);
    StartupQueriesStage(SendHeartbeat(s1, env, false), env);
  }

  lemma AcceptedAndGivenUp(s: ClientState)
    requires Shaking(s) && s.process.emergency && !s.process.suppressed
    ensures var env := Friendly(Started(true));
            var next := Step(s, env, Read([Answering(true)]));
            && next == AcceptInitialize(s, env, Hello(true))
            && !next.session.handshakeComplete && next.reconnect.state.Exhausted? && next.process.suppressed
  {
    AnswerIsAccepted(s, Friendly(Started(true)), true);
    EmergencyAccept(s, Friendly(Started(true)));
  }

  /** The second step leaves an open handshake, which the third answers as it should be answered. */
  lemma EmergencyShakes()
    ensures var before := Run(Initial([]), EmergencyRun()[..2]);
            Shaking(before) && before.process.emergency && !before.process.suppressed
  {
    var up := Started(true);
    EmergencyStart(Friendly(up));
    assert EmergencyRun()[..2] == [On(SetEmergencyDisabled(true), up), On(Start, up)];
    RunOfTwo(Initial([]), On(SetEmergencyDisabled(true), up), On(Start, up));
  }

  lemma AcceptedLast(s: ClientState, run: seq<Occurrence>, n: nat)
    requires |run| == n + 1 && run[n] == On(Read([Answering(true)]), Started(true))
    requires var before := Run(s, run[..n]);
             Shaking(before) && before.process.emergency && !before.process.suppressed
    ensures var end := Run(s, run);
            && end == AcceptInitialize(Run(s, run[..n]), Friendly(Started(true)), Hello(true))
            && !end.session.handshakeComplete && end.reconnect.state.Exhausted? && end.process.suppressed
  {
    RunSnoc(s, run);
    AcceptedAndGivenUp(Run(s, run[..n]));
  }

  lemma EmergencyRunIsFair()
    ensures FairRun(EmergencyRun())
  {
    FriendlyIsFair(Started(true));
  }

  /** The handshake is accepted, and the client gives the connection up in the same step. */
  lemma HeartbeatEndsEmergencyConnection()
    ensures var s := Run(Initial([]), EmergencyRun());
            !s.session.handshakeComplete && s.reconnect.state.Exhausted? && s.process.suppressed
  {
    EmergencyShakes();
    AcceptedLast(Initial([]), EmergencyRun(), 2);
  }

  // ---------------------------------------------------------------------
  // Ready although the reconnection is exhausted

  ghost function UnrecoveredRun(): seq<Occurrence> {
    [On(Start, StartFailed), On(ReconnectTimer, Started(true)), On(Read([Answering(false)]), Started(true)),
     On(CompleteRecovery(2, false), Started(true))]
  }

  /** Nothing has been asked yet, and a relaunch is due in the first generation. */
  predicate FirstRelaunchDue(s: ClientState) {
    && Due(s) && s.reconnect.cycleActive && s.process.generation == 1 && s.heartbeat.id == 0
    && s.requests == Requests(0, map[], {}, [], s.requests.wire)
  }

  lemma FirstStartSchedules()
    ensures FirstRelaunchDue(Step(Initial([]), Friendly(StartFailed), Start))
  {
    var env := Friendly(StartFailed);
    FirstStartFails([], env);
    var s0 := Initial([]);
    var s1 := s0.(reconnect := s0.reconnect.(relaunches := Reset(NoRelaunch)));
    assert Step(s0, env, Start) == Launched(Generation(s1), env);
    FailedLaunchOfNothing(Generation(s1));
  }

  lemma FailedLaunchOfNothing(s: ClientState)
    requires s.requests == Requests(0, map[], {}, [], s.requests.wire) && s.heartbeat.id == 0
    requires s.process.generation == 1 && s.reconnect.state.Idle? && s.reconnect.attempt < |s.reconnect.backoff|
    requires !s.process.stopping && !s.process.suppressed && !s.reconnect.terminationPending
    ensures FirstRelaunchDue(Launched(s, Friendly(StartFailed)))
  {
    var down := Running(s, false);
    var closed := Clear(ScheduleReconnect(down));
    assert closed.requests.pending.Keys == {} && map[] - closed.requests.pending.Keys == closed.requests.pending;
    assert Listing({}) == [];
    assert FirstRelaunchDue(HandleRetryable(down, Friendly(StartFailed)));
    assert Launched(s, Friendly(StartFailed)) == HandleRetryable(down, Friendly(StartFailed));
  }

  /** A relaunch that starts opens its handshake. */
  lemma RelaunchShakes(s: ClientState, env: Environment)
    requires FirstRelaunchDue(s) && env.launch == Started(true) && env.write(1) == Written
    ensures var next := Step(s, env, ReconnectTimer);
            Shaking(next) && next.process.generation == 2 && next.reconnect.cycleActive
  {
  }

  lemma RecoveryPends(s: ClientState, env: Environment)
    requires Shaking(s) && s.reconnect.cycleActive && env.notifies
    ensures var next := AcceptInitialize(s, env, Hello(false));
            && next.session.recoveryPending && next.session.handshakeComplete && next.session.ready
            && next.process == s.process && IsHealthy(next)
  {
    HelloIsValid(false);
  }

  lemma FailureStrands(s: ClientState, env: Environment)
    requires Shaking(s) && s.reconnect.cycleActive && s.process.generation == 2 && env.notifies
    ensures var end := Step(Step(s, env, Read([Answering(false)])), env, CompleteRecovery(2, false));
            IsReady(end) && end.reconnect.state.Exhausted? && end.process.suppressed
  {
    AnswerIsAccepted(s, env, false);
    RecoveryPends(s, env);
    var accepted := AcceptInitialize(s, env, Hello(false));
    assert Step(accepted, env, CompleteRecovery(2, false)) == Unrecovered(accepted);
  }

  lemma UnrecoveredRunEnds()
    ensures var up := Friendly(Started(true));
            var s2 := Step(Step(Initial([]), Friendly(StartFailed), Start), up, ReconnectTimer);
            Run(Initial([]), UnrecoveredRun())
            == Step(Step(s2, up, Read([Answering(false)])), up, CompleteRecovery(2, false))
  {
    var run := UnrecoveredRun();
    RunOfFour(Initial([]), run[0], run[1], run[2], run[3]);
    RunOfThree(Initial([]), run[0], run[1], run[2]);
  }

  lemma RelaunchedAndStranded(s: ClientState)
    requires FirstRelaunchDue(s)
    ensures var up := Friendly(Started(true));
            var end := Step(Step(Step(s, up, ReconnectTimer), up, Read([Answering(false)])), up, CompleteRecovery(2, false));
            IsReady(end) && end.reconnect.state.Exhausted? && end.process.suppressed
  {
    var up := Friendly(Started(true));
    RelaunchShakes(s, up);
    FailureStrands(Step(s, up, ReconnectTimer), up);
  }

  lemma UnrecoveredRunIsFair()
    ensures FairRun(UnrecoveredRun())
  {
    FriendlyIsFair(StartFailed);
    FriendlyIsFair(Started(true));
  }

  /** A relaunched client whose recovery fails is ready while its reconnection is exhausted. */
  lemma ReadyAlthoughExhausted()
    ensures var s := Run(Initial([]), UnrecoveredRun());
            IsReady(s) && s.reconnect.state.Exhausted? && s.process.suppressed
  {
    UnrecoveredRunEnds();
    FirstStartSchedules();
    RelaunchedAndStranded(Step(Initial([]), Friendly(StartFailed), Start));
  }
}
