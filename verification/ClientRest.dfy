// Once the runtime client is at rest, after stop or after giving up, only a new start or a change
// of policy begins another generation.

module ClientRest {
  import opened Capabilities
  import opened ClientState
  import opened ClientRuns

  /** All calls of launchProcess(true), whether the counter has been reset since or not. */
  function AllLaunches(relaunches: Relaunches): nat {
    match relaunches
    case NoRelaunch => 0
    case Relaunched(past) => 1 + AllLaunches(past)
    case Reset(past) => AllLaunches(past)
  }

  /** What only a launch or a change of policy moves. */
  datatype Standing = Standing(suppressed: bool, generation: nat, policyRestart: bool, launches: nat)

  function StandingOf(s: ClientState): Standing {
    Standing(s.process.suppressed, s.process.generation, s.process.policyRestart, AllLaunches(s.reconnect.relaunches))
  }

  /** From one state at rest to another: no launch, no new generation, and no process that did not run before. */
  predicate Rests(s: ClientState, next: ClientState) {
    StandingOf(next) == StandingOf(s) && (next.process.running ==> s.process.running)
  }

  // ---------------------------------------------------------------------
  // Operations

  lemma SurrenderRests(s: ClientState, env: Environment)
    requires s.process.suppressed
    ensures Rests(s, Surrender(s, env)) && Rests(s, GiveUp(s, env))
  {
  }

  lemma RejectProtocolRests(s: ClientState, env: Environment)
    requires s.process.suppressed
    ensures Rests(s, RejectProtocol(s, env))
  {
  }

  lemma RejectInitializeRests(s: ClientState)
    requires s.process.suppressed
    ensures Rests(s, RejectInitialize(s))
  {
  }

  lemma RejectFrameRests(s: ClientState, env: Environment)
    requires s.process.suppressed
    ensures Rests(s, RejectFrame(s, env))
  {
    RejectProtocolRests(s, env);
    RejectInitializeRests(s);
  }

  lemma SendingRests(s: ClientState, env: Environment, call: Call, admitted: bool, identified: bool)
    requires s.process.suppressed
    ensures Rests(s, SendIf(s, env, call, admitted, identified).0)
  {
    SurrenderRests(Unwritten(s), env);
    assert Rests(s, Issued(s, call)) && Rests(s, Unwritten(s)) && Rests(s, Taken(s));
  }

  lemma SendRequestRests(s: ClientState, env: Environment, call: Call, identified: bool)
    requires s.process.suppressed
    ensures Rests(s, SendRequest(s, env, call, identified).0)
  {
    SendingRests(s, env, call, Admitted(s, env.platform, call), identified);
  }

  lemma QueryRests(s: ClientState, env: Environment, capability: Capability, verb: Method)
    requires s.process.suppressed
    ensures Rests(s, Query(s, env, capability, verb))
  {
    SendRequestRests(s, env, Plain(verb), true);
  }

  lemma QueriesRest(s: ClientState, env: Environment)
    requires s.process.suppressed
    ensures Rests(s, StartupQueries(s, env))
  {
    QueryRests(s, env, Capability.RuntimeHealth, Method.RuntimeHealth);
    var s1 := Query(s, env, Capability.RuntimeHealth, Method.RuntimeHealth);
    QueryRests(s1, env, Capability.RuntimeDegradations, Method.RuntimeDegradations);
    var s2 := Query(s1, env, Capability.RuntimeDegradations, Method.RuntimeDegradations);
    QueryRests(s2, env, ModelCatalogReadOnly, ModelCatalog);
    var s3 := Query(s2, env, ModelCatalogReadOnly, ModelCatalog);
    QueryRests(s3, env, ModelCatalogCacheReadOnly, ModelCatalogCache);
    var s4 := Query(s3, env, ModelCatalogCacheReadOnly, ModelCatalogCache);
    QueryRests(s4, env, ModelCatalogRefreshStatusReadOnly, ModelCatalogRefreshStatus);
    var s5 := Query(s4, env, ModelCatalogRefreshStatusReadOnly, ModelCatalogRefreshStatus);
    QueryRests(s5, env, ModelProfileReadOnly, ModelProfileList);
    var s6 := Query(s5, env, ModelProfileReadOnly, ModelProfileList);
    QueryRests(s6, env, Capability.RuntimeRecoveryStatus, Method.RuntimeRecoveryStatus);
    QueryRests(s6, env, Capability.RuntimeProjectionRecoveryStatus, Method.RuntimeProjectionRecoveryStatus);
  }

  lemma SendHeartbeatRests(s: ClientState, env: Environment, probe: bool)
    requires s.process.suppressed
    ensures Rests(s, SendHeartbeat(s, env, probe))
  {
    SendingRests(Counted(s), env, Plain(RuntimeHeartbeat), Admitted(Counted(s), env.platform, Plain(RuntimeHeartbeat)), true);
  }

  lemma HeartbeatTimeoutRests(s: ClientState, env: Environment)
    requires s.process.suppressed
    ensures Rests(s, HeartbeatTimeout(s, env))
  {
    SurrenderRests(Discard(Unhealthy(Unbeaten(s))), env);
  }

  // ---------------------------------------------------------------------
  // Messages

  lemma AcceptRests(s: ClientState, env: Environment, hello: InitializeResult)
    requires s.process.suppressed
    ensures Rests(s, AcceptInitialize(s, env, hello))
  {
    var s1 := Negotiated(s, hello);
    RejectProtocolRests(s1, env);
    SendHeartbeatRests(s1, env, false);
    QueriesRest(s1, env);
    QueriesRest(SendHeartbeat(s1, env, false), env);
  }

  lemma ErrorRests(s: ClientState, env: Environment, id: nat, verb: Method, body: Body)
    requires s.process.suppressed && body.ErrorBody?
    ensures Rests(s, ProcessError(s, env, id, verb, body))
  {
    if body.wellFormed && verb.RuntimeHeartbeat? {
      HeartbeatTimeoutRests(Reported(s, id), env);
    } else {
      RejectProtocolRests(s, env);
    }
  }

  lemma AnswerRests(s: ClientState, id: nat)
    requires s.process.suppressed
    ensures Rests(s, Answer(s, id))
  {
  }

  lemma HeartbeatResultRests(s: ClientState, env: Environment, id: nat, body: Body)
    requires s.process.suppressed && body.ResultBody?
    ensures Rests(s, ProcessHeartbeat(s, env, id, body))
  {
    RejectProtocolRests(s, env);
    AnswerRests(s, id);
  }

  lemma ResultRests(s: ClientState, env: Environment, id: nat, verb: Method, body: Body)
    requires s.process.suppressed && body.ResultBody?
    ensures Rests(s, ProcessResult(s, env, id, verb, body))
  {
    if !body.typed {
      RejectProtocolRests(s, env);
    } else if verb.RuntimeHeartbeat? {
      HeartbeatResultRests(s, env, id, body);
    } else if ResultIsChecked(verb) && !body.valid {
      RejectProtocolRests(s, env);
    } else {
      AnswerRests(s, id);
    }
  }

  lemma LateResponseRests(s: ClientState, env: Environment, id: nat, verb: Method, body: Body)
    requires s.process.suppressed
    ensures Rests(s, DispatchLate(s, env, id, verb, body))
  {
    if verb.Initialize? || body.Neither? {
      RejectProtocolRests(s, env);
    } else if body.ErrorBody? {
      ErrorRests(s, env, id, verb, body);
    } else {
      ResultRests(s, env, id, verb, body);
    }
  }

  lemma EarlyResponseRests(s: ClientState, env: Environment, id: nat, verb: Method, body: Body)
    requires s.process.suppressed
    ensures Rests(s, DispatchEarly(s, env, id, verb, body))
  {
    RejectInitializeRests(s);
    RejectFrameRests(s, env);
    if body.ResultBody? {
      AcceptRests(s, env, body.hello);
    }
  }

  lemma ResponseRests(s: ClientState, env: Environment, id: nat, decoding: Decoding, body: Body)
    requires s.process.suppressed
    ensures Rests(s, ProcessResponse(s, env, id, decoding, body))
  {
    if decoding.Rejected? {
      RejectFrameRests(s, env);
    } else if !decoding.Unmatched? && PendingCurrent(s, id) {
      if s.session.handshakeComplete {
        LateResponseRests(s, env, id, s.requests.pending[id].verb, body);
      } else {
        EarlyResponseRests(s, env, id, s.requests.pending[id].verb, body);
      }
    }
  }

  lemma FrameRests(s: ClientState, env: Environment, frame: Frame)
    requires s.process.suppressed
    ensures Rests(s, ProcessFrame(s, env, frame))
  {
    if frame.Response? {
      ResponseRests(s, env, frame.id, frame.decoding, frame.body);
    } else {
      RejectFrameRests(s, env);
    }
  }

  lemma {:induction false} FramesRest(s: ClientState, env: Environment, frames: seq<Frame>)
    requires s.process.suppressed
    ensures Rests(s, ProcessFrames(s, env, frames))
    decreases |frames|
  {
    if frames != [] {
      RejectProtocolRests(s, env);
      FrameRests(s, env, frames[0]);
      FramesRest(ProcessFrame(s, env, frames[0]), env, frames[1..]);
    }
  }

  // ---------------------------------------------------------------------
  // Steps and runs

  lemma FinishedRests(s: ClientState, env: Environment)
    requires s.process.suppressed && !s.process.policyRestart
    ensures Rests(s, OnFinished(s, env))
  {
  }

  lemma ProbeRests(s: ClientState, env: Environment, probe: Probe)
    requires s.process.suppressed
    ensures Rests(s, OnProbeTimer(s, env, probe))
  {
    SendHeartbeatRests(s.(heartbeat := s.heartbeat.(probes := s.heartbeat.probes - multiset{probe})), env, true);
  }

  /** A failed process, a failed connection and a due relaunch find the client at rest. */
  lemma ErrorOccurredRests(s: ClientState, env: Environment, crashed: bool)
    requires s.process.suppressed
    ensures Rests(s, OnError(s, env, crashed))
  {
  }

  lemma FailedToStartRests(s: ClientState, env: Environment)
    requires s.process.suppressed
    ensures Rests(s, OnError(s.(process := s.process.(running := false)), env, false))
  {
    ErrorOccurredRests(s.(process := s.process.(running := false)), env, false);
  }

  lemma AbandonRests(s: ClientState, env: Environment)
    requires s.process.suppressed
    ensures Rests(s, OnAbandon(s, env))
  {
  }

  lemma ReconnectTimerRests(s: ClientState, env: Environment)
    requires s.process.suppressed
    ensures Rests(s, BeginReconnect(s, env))
  {
  }

  lemma StartupTimerRests(s: ClientState, env: Environment)
    requires s.process.suppressed
    ensures Rests(s, OnStartupTimer(s, env))
  {
  }

  lemma RecoveryRests(s: ClientState, env: Environment, generation: nat, success: bool)
    requires s.process.suppressed
    ensures Rests(s, OnCompleteRecovery(s, env, generation, success))
  {
    QueriesRest(Recovered(s), env);
  }

  lemma OnStopRests(s: ClientState, env: Environment)
    requires s.process.suppressed
    ensures Rests(s, OnStop(s, env))
  {
    SendRequestRests(Stopping(s), env, Plain(Shutdown), true);
  }

  /** What can wake the client up. */
  predicate Wakes(event: Event) {
    event.Start? || event.SetEmergencyDisabled?
  }

  lemma StepRests(s: ClientState, env: Environment, event: Event)
    requires s.process.suppressed && !s.process.policyRestart && !Wakes(event)
    ensures Rests(s, Step(s, env, event))
  {
    if Enabled(s, event) {
      match event {
        case Stop => OnStopRests(s, env);
        case Ask(call, identified) => SendRequestRests(s, env, call, identified || !IsSubscription(call.verb));
        case Abandon => AbandonRests(s, env);
        case CompleteRecovery(generation, success) => RecoveryRests(s, env, generation, success);
        case StartupTimer => StartupTimerRests(s, env);
        case HeartbeatTimer => SendHeartbeatRests(s, env, false);
        case DeadlineTimer => HeartbeatTimeoutRests(s, env);
        case ReconnectTimer => ReconnectTimerRests(s.(reconnect := s.reconnect.(timerActive := false)), env);
        case StabilityTimer =>
        case ProbeTimer(probe) => ProbeRests(s, env, probe);
        case Read(frames) => FramesRest(s, env, frames);
        case ErrorOccurred(crashed) => ErrorOccurredRests(s, env, crashed);
        case FailedToStart => FailedToStartRests(s, env);
        case Finished => FinishedRests(s, env);
      }
    }
  }

  /** Until it is started or its policy changes, a client at rest launches nothing and begins no generation. */
  lemma {:induction false} RunRests(s: ClientState, run: seq<Occurrence>)
    requires s.process.suppressed && !s.process.policyRestart
    requires forall i | 0 <= i < |run| :: !Wakes(run[i].event)
    ensures Rests(s, Run(s, run))
    decreases |run|
  {
    if run != [] {
      StepRests(s, run[0].env, run[0].event);
      RunRests(Step(s, run[0].env, run[0].event), run[1..]);
    }
  }

  /** stop() puts any client to rest, and so does giving up. */
  lemma StopRests(s: ClientState, env: Environment)
    ensures OnStop(s, env).process.suppressed && GiveUp(s, env).process.suppressed
    ensures OnStop(s, env).process.generation == s.process.generation
  {
    SendRequestRests(Stopping(s), env, Plain(Shutdown), true);
  }
}
