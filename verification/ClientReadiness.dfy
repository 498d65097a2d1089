// How readiness and the state of the reconnection go together in the runtime client: a connection
// that is ready while the reconnection is not idle has failed its recovery.

module ClientReadiness {
  import opened Capabilities
  import opened ClientState
  import opened ClientHeartbeats

  // ---------------------------------------------------------------------
  // What matters of a state

  datatype Stage = Stage(
    running: bool,
    stopping: bool,
    suppressed: bool,
    generation: nat,
    state: ReconnectState,
    cycleActive: bool,
    timerActive: bool,
    scheduledGeneration: nat,
    terminationPending: bool,
    terminationGeneration: nat,
    complete: bool,
    open: bool,
    recoveryPending: bool)

  function StageOf(s: ClientState): Stage {
    Stage(s.process.running, s.process.stopping, s.process.suppressed, s.process.generation,
          s.reconnect.state, s.reconnect.cycleActive, s.reconnect.timerActive, s.reconnect.scheduledGeneration,
          s.reconnect.terminationPending, s.reconnect.terminationGeneration,
          s.session.handshakeComplete, s.session.initializeId != 0, s.session.recoveryPending)
  }

  /** A relaunch is scheduled in the current generation, and nothing stands in its way. */
  predicate Due(s: ClientState) {
    && s.reconnect.state.Waiting? && s.reconnect.timerActive
    && s.reconnect.scheduledGeneration == s.process.generation
    && !s.process.running && !s.process.stopping && !s.process.suppressed
  }

  /** Neither a handshake nor a session. */
  predicate Over(stage: Stage) {
    !stage.complete && !stage.open
  }

  /** A usable session although the reconnection is not idle. */
  predicate Marooned(stage: Stage) {
    stage.complete && !stage.recoveryPending && !stage.state.Idle?
  }

  /** Which sessions each state of the reconnection goes with. */
  predicate Placed(stage: Stage) {
    && (stage.complete ==> !stage.open)
    && (stage.recoveryPending ==> stage.complete)
    && (Marooned(stage) ==> stage.state.Exhausted? && stage.suppressed)
    && (stage.open ==> stage.state.Idle? || (stage.cycleActive && stage.state.Restarting?))
    && (stage.state.Waiting? || stage.state.Restarting? ==> stage.cycleActive)
    && (stage.state.Waiting? ==>
          && stage.timerActive && stage.scheduledGeneration == stage.generation && Over(stage)
          && !stage.running && !stage.stopping && !stage.suppressed)
    && (stage.terminationPending && stage.terminationGeneration == stage.generation ==> Over(stage))
    && stage.terminationGeneration <= stage.generation
  }

  /** A generation does not open a second session, and a usable session does not change the state. */
  predicate Follows(a: Stage, b: Stage) {
    && Placed(b)
    && a.generation <= b.generation
    && (Over(a) && a.generation == b.generation ==> Over(b))
    && (Marooned(b) ==> Marooned(a) && a.generation == b.generation)
    && (Marooned(a) && a.generation == b.generation ==> Marooned(b) || Over(b))
  }

  predicate Onward(s: ClientState, next: ClientState) {
    Follows(StageOf(s), StageOf(next))
  }

  // ---------------------------------------------------------------------
  // Tearing down

  /** A connection given up. */
  function Fallen(stage: Stage): Stage {
    stage.(suppressed := true, state := Exhausted, cycleActive := false, timerActive := false, scheduledGeneration := 0,
           terminationPending := false, terminationGeneration := 0, complete := false, open := false,
           recoveryPending := false)
  }

  /** A connection rejected: the reconnection is exhausted only if it was under way. */
  function Refused(stage: Stage): Stage {
    Fallen(stage).(state := if stage.cycleActive then Exhausted else stage.state)
  }

  predicate SameOrFallen(s: ClientState, next: ClientState) {
    StageOf(next) == StageOf(s) || StageOf(next) == Fallen(StageOf(s))
  }

  lemma SurrenderFalls(s: ClientState, env: Environment)
    ensures StageOf(Surrender(s, env)) == StageOf(GiveUp(s, env)) == Fallen(StageOf(s))
  {
  }

  lemma RejectionRefuses(s: ClientState, env: Environment)
    ensures StageOf(RejectProtocol(s, env)) == Refused(StageOf(s))
    ensures StageOf(RejectInitialize(s)) == Refused(StageOf(s))
    ensures StageOf(RejectFrame(s, env)) == Refused(StageOf(s))
  {
  }

  lemma FallenFollows(stage: Stage)
    requires Placed(stage)
    ensures Follows(stage, stage) && Follows(stage, Fallen(stage)) && Follows(stage, Refused(stage))
  {
  }

  // ---------------------------------------------------------------------
  // Requests and heartbeats

  lemma SendIfStage(s: ClientState, env: Environment, call: Call, admitted: bool, identified: bool)
    ensures SameOrFallen(s, SendIf(s, env, call, admitted, identified).0)
  {
    SurrenderFalls(Unwritten(s), env);
    assert StageOf(Unwritten(s)) == StageOf(Issued(s, call)) == StageOf(Taken(s)) == StageOf(s);
  }

  lemma SendRequestStage(s: ClientState, env: Environment, call: Call, identified: bool)
    ensures SameOrFallen(s, SendRequest(s, env, call, identified).0)
  {
    SendIfStage(s, env, call, Admitted(s, env.platform, call), identified);
  }

  lemma QueryStage(s: ClientState, env: Environment, capability: Capability, verb: Method)
    ensures SameOrFallen(s, Query(s, env, capability, verb))
  {
    SendRequestStage(s, env, Plain(verb), true);
  }

  lemma StartupQueriesStage(s: ClientState, env: Environment)
    ensures SameOrFallen(s, StartupQueries(s, env))
  {
    QueryStage(s, env, Capability.RuntimeHealth, Method.RuntimeHealth);
    var s1 := Query(s, env, Capability.RuntimeHealth, Method.RuntimeHealth);
    QueryStage(s1, env, Capability.RuntimeDegradations, Method.RuntimeDegradations);
    var s2 := Query(s1, env, Capability.RuntimeDegradations, Method.RuntimeDegradations);
    QueryStage(s2, env, ModelCatalogReadOnly, ModelCatalog);
    var s3 := Query(s2, env, ModelCatalogReadOnly, ModelCatalog);
    QueryStage(s3, env, ModelCatalogCacheReadOnly, ModelCatalogCache);
    var s4 := Query(s3, env, ModelCatalogCacheReadOnly, ModelCatalogCache);
    QueryStage(s4, env, ModelCatalogRefreshStatusReadOnly, ModelCatalogRefreshStatus);
    var s5 := Query(s4, env, ModelCatalogRefreshStatusReadOnly, ModelCatalogRefreshStatus);
    QueryStage(s5, env, ModelProfileReadOnly, ModelProfileList);
    var s6 := Query(s5, env, ModelProfileReadOnly, ModelProfileList);
    QueryStage(s6, env, Capability.RuntimeRecoveryStatus, Method.RuntimeRecoveryStatus);
    QueryStage(s6, env, Capability.RuntimeProjectionRecoveryStatus, Method.RuntimeProjectionRecoveryStatus);
  }

  lemma BeatIfStage(s: ClientState, env: Environment, probe: bool, admitted: bool)
    ensures SameOrFallen(s, BeatIf(s, env, probe, admitted))
  {
    BeatCases(s, env, probe);
    SurrenderFalls(FailOrdinary(Unhealthy(s), env), env);
    SurrenderFalls(FailOrdinary(Unhealthy(Unwritten(s)), env), env);
    SurrenderFalls(Unwritten(s), env);
    assert StageOf(FailOrdinary(Unhealthy(s), env)) == StageOf(FailOrdinary(Unhealthy(Unwritten(s)), env)) == StageOf(s);
    assert StageOf(Unwritten(s)) == StageOf(s);
    assert StageOf(Beating(Issued(s, Plain(RuntimeHeartbeat)), s.requests.next + 1, probe)) == StageOf(s);
  }

  lemma SendHeartbeatStage(s: ClientState, env: Environment, probe: bool)
    ensures SameOrFallen(s, SendHeartbeat(s, env, probe))
  {
    if MayBeat(s, probe) {
      BeatIfStage(Counted(s), env, probe, Admitted(Counted(s), env.platform, Plain(RuntimeHeartbeat)));
    }
  }

  // ---------------------------------------------------------------------
  // Launching and reconnecting

  /** What a failed process leads to. */
  function Retried(stage: Stage, attemptsLeft: bool): Stage {
    if stage.stopping || stage.suppressed then stage
    else if stage.running then Fallen(stage)
    else
      var closed := stage.(complete := false, open := false, recoveryPending := false, cycleActive := true);
      if stage.state.Waiting? && stage.timerActive then closed.(cycleActive := stage.cycleActive)
      else if attemptsLeft then closed.(state := Waiting, scheduledGeneration := stage.generation, timerActive := true)
      else closed.(state := Exhausted, scheduledGeneration := 0, timerActive := false)
  }

  lemma HandleRetryableStage(s: ClientState, env: Environment)
    ensures StageOf(HandleRetryable(s, env)) == Retried(StageOf(s), s.reconnect.attempt < |s.reconnect.backoff|)
  {
    SurrenderFalls(s, env);
  }

  lemma RetriedFollows(stage: Stage, attemptsLeft: bool)
    requires Placed(stage)
    ensures Follows(stage, Retried(stage, attemptsLeft))
  {
  }

  lemma HandleRetryableFollows(s: ClientState, env: Environment)
    requires Placed(StageOf(s))
    ensures Onward(s, HandleRetryable(s, env))
  {
    HandleRetryableStage(s, env);
    RetriedFollows(StageOf(s), s.reconnect.attempt < |s.reconnect.backoff|);
  }

  lemma OnErrorFollows(s: ClientState, env: Environment, crashed: bool)
    requires Placed(StageOf(s))
    ensures Onward(s, OnError(s, env, crashed))
  {
    FallenFollows(StageOf(s));
    SurrenderFalls(s, env);
    HandleRetryableFollows(s, env);
  }

  /** A generation in which nothing has been opened yet, on behalf of start or of a reconnect. */
  predicate Blank(stage: Stage) {
    && Placed(stage) && Over(stage) && !stage.state.Waiting? && !stage.state.Exhausted?
    && (stage.terminationPending ==> stage.terminationGeneration < stage.generation)
  }

  /** A launch ends with a handshake at most. */
  predicate Opens(s: ClientState, next: ClientState) {
    && Placed(StageOf(next)) && !next.session.handshakeComplete && next.process.generation == s.process.generation
  }

  lemma SendInitializeOpens(s: ClientState, env: Environment)
    requires Blank(StageOf(s))
    ensures Opens(s, SendInitialize(s, env))
  {
    SendRequestStage(s, env, Plain(Initialize), true);
    var (s1, id) := Send(s, env, Initialize);
    FallenFollows(StageOf(s));
    HandleRetryableFollows(s1.(session := s1.session.(initializeId := 0, initializeGeneration := s1.process.generation)), env);
  }

  lemma HandleRetryableOpens(s: ClientState, env: Environment)
    requires Placed(StageOf(s)) && Over(StageOf(s))
    ensures Opens(s, HandleRetryable(s, env)) && Over(StageOf(HandleRetryable(s, env)))
  {
    HandleRetryableStage(s, env);
  }

  lemma FailedStartOpens(s: ClientState, env: Environment)
    requires Blank(StageOf(s))
    ensures Opens(s, NotStarted(OnError(Running(s, false), env, false), env))
  {
    var down := Running(s, false);
    HandleRetryableOpens(down, env);
    HandleRetryableOpens(OnError(down, env, false), env);
  }

  lemma StartedOpens(s: ClientState, env: Environment, prelude: bool)
    requires Blank(StageOf(s))
    ensures var up := Running(s, true);
            var s1 := up.(session := up.session.(startupGeneration := up.process.generation));
            Opens(s, if prelude then SendInitialize(s1, env) else HandleRetryable(s1, env))
  {
    var up := Running(s, true);
    var s1 := up.(session := up.session.(startupGeneration := up.process.generation));
    SendInitializeOpens(s1, env);
    HandleRetryableOpens(s1, env);
  }

  lemma LaunchedOpens(s: ClientState, env: Environment)
    requires Blank(StageOf(s))
    ensures Opens(s, Launched(s, env))
  {
    match env.launch {
      case StartFailed => FailedStartOpens(s, env);
      case Started(prelude) => StartedOpens(s, env, prelude);
      case _ => HandleRetryableOpens(Running(s, true), env);
    }
  }

  /** A launch is made by start, from an idle state, or by a reconnect, without a session. */
  predicate Launchable(stage: Stage, reconnect: bool) {
    Placed(stage) && (if reconnect then Over(stage) && stage.state.Restarting? else stage.state.Idle?)
  }

  lemma GenerationIsBlank(s: ClientState, reconnect: bool)
    requires Launchable(StageOf(s), reconnect)
    ensures var begun := Generation(s);
            && Blank(StageOf(begun)) && begun.process.generation == s.process.generation + 1
            && Placed(StageOf(begun).(suppressed := true, state := Exhausted))
  {
  }

  lemma UnlaunchableStage(s: ClientState, exhausted: bool)
    ensures StageOf(Unlaunchable(s, exhausted))
         == StageOf(s).(suppressed := true, state := if exhausted then Exhausted else s.reconnect.state)
  {
  }

  lemma NextGenerationFollows(a: Stage, b: Stage)
    requires Placed(b) && a.generation < b.generation && !b.complete
    ensures Follows(a, b)
  {
  }

  lemma LaunchProcessFollows(s: ClientState, env: Environment, reconnect: bool)
    requires Launchable(StageOf(s), reconnect)
    ensures Onward(s, LaunchProcess(s, env, reconnect))
  {
    var s1 := if reconnect then s.(reconnect := s.reconnect.(relaunches := Relaunched(s.reconnect.relaunches))) else s;
    assert StageOf(s1) == StageOf(s);
    var next := LaunchProcess(s, env, reconnect);
    if s.process.stopping || s.process.suppressed || s.process.running {
      assert next == s1;
    } else if env.launch.NoRuntime? || env.launch.BadManifest? {
      UnlaunchableStage(s1, reconnect);
      assert next == Unlaunchable(s1, reconnect);
    } else {
      GenerationIsBlank(s1, reconnect);
      LaunchedOpens(Generation(s1), env);
      UnlaunchableStage(Generation(s1), true);
      assert next == if env.launch.NoDataRoot? then Unlaunchable(Generation(s1), true) else Launched(Generation(s1), env);
      NextGenerationFollows(StageOf(s), StageOf(next));
    }
  }

  lemma BeginReconnectFollows(s: ClientState, env: Environment)
    requires Placed(StageOf(s).(timerActive := true))
    requires s.reconnect.state.Waiting? || Placed(StageOf(s))
    ensures Onward(s, BeginReconnect(s, env))
  {
    if s.reconnect.state.Waiting? {
      var s1 := SetState(s.(reconnect := s.reconnect.(scheduledGeneration := 0)), Restarting);
      LaunchProcessFollows(s1, env, true);
    }
  }

  lemma TerminatingFollows(s: ClientState, env: Environment)
    requires Placed(StageOf(s))
    ensures Onward(s, Terminating(s, env)) && Launchable(StageOf(Settled(Terminating(s, env))), true)
    ensures Onward(s, Settled(Terminating(s, env)))
  {
  }

  lemma FollowsThrough(a: Stage, b: Stage, c: Stage)
    requires Follows(a, b) && Follows(b, c)
    ensures Follows(a, c)
  {
  }

  lemma AbandonAmbiguousFollows(s: ClientState, env: Environment)
    requires Placed(StageOf(s))
    ensures Onward(s, AbandonAmbiguous(s, env))
  {
    var s1 := Discard(Unhealthy(s));
    assert StageOf(s1) == StageOf(s);
    SurrenderFalls(s1, env);
    FallenFollows(StageOf(s));
    TerminatingFollows(s1, env);
    var settled := Settled(Terminating(s1, env));
    LaunchProcessFollows(settled, env, true);
    FollowsThrough(StageOf(s), StageOf(settled), StageOf(LaunchProcess(settled, env, true)));
  }

  lemma HeartbeatTimeoutFollows(s: ClientState, env: Environment)
    requires Placed(StageOf(s))
    ensures Onward(s, HeartbeatTimeout(s, env))
  {
    assert StageOf(Unbeaten(s)) == StageOf(s);
    assert StageOf(ScheduleProbe(FailOrdinary(Unhealthy(Unbeaten(s)), env))) == StageOf(s);
    AbandonAmbiguousFollows(Unbeaten(s), env);
    FallenFollows(StageOf(s));
  }

  // ---------------------------------------------------------------------
  // Messages

  lemma FallsFollows(s: ClientState, next: ClientState)
    requires Placed(StageOf(s)) && SameOrFallen(s, next)
    ensures Onward(s, next)
  {
    FallenFollows(StageOf(s));
  }

  function Accepted(stage: Stage): Stage {
    stage.(complete := true, open := false)
  }

  lemma NegotiatedStage(s: ClientState, hello: InitializeResult)
    ensures StageOf(Negotiated(s, hello)) == Accepted(StageOf(s))
  {
  }

  /** What is left of an accepted handshake after the first heartbeat. */
  lemma FirstBeatStage(s: ClientState, env: Environment)
    ensures SameOrFallen(s, if s.heartbeat.negotiated then SendHeartbeat(s, env, false) else s)
  {
    SendHeartbeatStage(s, env, false);
  }

  /** An accepted handshake of a reconnect is usable only after its recovery; any other finds the state idle. */
  lemma AcceptedFollows(stage: Stage)
    requires Placed(stage) && stage.open
    ensures Follows(stage, Refused(Accepted(stage))) && Follows(stage, Fallen(Accepted(stage)))
    ensures Follows(stage, if stage.cycleActive then Accepted(stage).(recoveryPending := true) else Accepted(stage))
  {
  }

  lemma UsableFollows(s: ClientState, s2: ClientState, env: Environment)
    requires Placed(StageOf(s)) && s.session.initializeId != 0
    requires StageOf(s2) == Accepted(StageOf(s)) || StageOf(s2) == Fallen(Accepted(StageOf(s)))
    ensures Onward(s, if s2.reconnect.cycleActive then s2.(session := s2.session.(recoveryPending := true))
                      else StartupQueries(s2, env))
  {
    AcceptedFollows(StageOf(s));
    StartupQueriesStage(s2, env);
    if s2.reconnect.cycleActive {
      assert StageOf(s2.(session := s2.session.(recoveryPending := true))) == StageOf(s2).(recoveryPending := true);
    }
  }

  lemma AcceptInitializeFollows(s: ClientState, env: Environment, hello: InitializeResult)
    requires Placed(StageOf(s)) && s.session.initializeId != 0
    ensures Onward(s, AcceptInitialize(s, env, hello))
  {
    var s1 := Negotiated(s, hello);
    NegotiatedStage(s, hello);
    if !env.notifies {
      AcceptedFollows(StageOf(s));
      RejectionRefuses(s1, env);
    } else {
      FirstBeatStage(s1, env);
      UsableFollows(s, if s1.heartbeat.negotiated then SendHeartbeat(s1, env, false) else s1, env);
    }
  }

  lemma AnswerStage(s: ClientState, id: nat)
    ensures StageOf(Answer(s, id)) == StageOf(Reported(s, id)) == StageOf(s)
  {
  }

  lemma LateErrorFollows(s: ClientState, env: Environment, id: nat, verb: Method, body: Body)
    requires Placed(StageOf(s)) && body.ErrorBody?
    ensures Onward(s, ProcessError(s, env, id, verb, body))
  {
    RejectionRefuses(s, env);
    FallenFollows(StageOf(s));
    AnswerStage(s, id);
    if body.wellFormed && verb.RuntimeHeartbeat? {
      HeartbeatTimeoutFollows(Reported(s, id), env);
    }
  }

  lemma LateResultStage(s: ClientState, env: Environment, id: nat, verb: Method, body: Body)
    requires body.ResultBody?
    ensures StageOf(ProcessResult(s, env, id, verb, body)) in {StageOf(s), Refused(StageOf(s))}
  {
    RejectionRefuses(s, env);
    AnswerStage(s, id);
  }

  lemma LateResponseFollows(s: ClientState, env: Environment, id: nat, verb: Method, body: Body)
    requires Placed(StageOf(s))
    ensures Onward(s, DispatchLate(s, env, id, verb, body))
  {
    FallenFollows(StageOf(s));
    if verb.Initialize? || body.Neither? {
      RejectionRefuses(s, env);
    } else if body.ErrorBody? {
      LateErrorFollows(s, env, id, verb, body);
    } else {
      LateResultStage(s, env, id, verb, body);
    }
  }

  lemma EarlyResponseFollows(s: ClientState, env: Environment, id: nat, verb: Method, body: Body)
    requires Placed(StageOf(s)) && id != 0
    ensures Onward(s, DispatchEarly(s, env, id, verb, body))
  {
    RejectionRefuses(s, env);
    FallenFollows(StageOf(s));
    if body.ResultBody? && id == s.session.initializeId {
      AcceptInitializeFollows(s, env, body.hello);
    }
  }

  lemma ResponseFollows(s: ClientState, env: Environment, id: nat, decoding: Decoding, body: Body)
    requires Placed(StageOf(s))
    ensures Onward(s, ProcessResponse(s, env, id, decoding, body))
  {
    FallenFollows(StageOf(s));
    if decoding.Rejected? {
      RejectionRefuses(s, env);
    } else if !decoding.Unmatched? && PendingCurrent(s, id) {
      if s.session.handshakeComplete {
        LateResponseFollows(s, env, id, s.requests.pending[id].verb, body);
      } else {
        EarlyResponseFollows(s, env, id, s.requests.pending[id].verb, body);
      }
    }
  }

  lemma FrameFollows(s: ClientState, env: Environment, frame: Frame)
    requires Placed(StageOf(s))
    ensures Onward(s, ProcessFrame(s, env, frame))
  {
    RejectionRefuses(s, env);
    FallenFollows(StageOf(s));
    if frame.Response? {
      ResponseFollows(s, env, frame.id, frame.decoding, frame.body);
    }
  }

  lemma {:induction false} FramesFollow(s: ClientState, env: Environment, frames: seq<Frame>)
    requires Placed(StageOf(s))
    ensures Onward(s, ProcessFrames(s, env, frames))
    decreases |frames|
  {
    FallenFollows(StageOf(s));
    if frames != [] {
      RejectionRefuses(s, env);
      FrameFollows(s, env, frames[0]);
      var s1 := ProcessFrame(s, env, frames[0]);
      FramesFollow(s1, env, frames[1..]);
      FollowsThrough(StageOf(s), StageOf(s1), StageOf(ProcessFrames(s1, env, frames[1..])));
    }
  }

  // ---------------------------------------------------------------------
  // Steps

  /** The application accepts that the recovery of this generation has failed. */
  predicate FailsRecovery(s: ClientState, event: Event) {
    event.CompleteRecovery? && !event.success && CanComplete(s, event.generation)
  }

  /** Stopping, restarting for a change of policy, or starting anew. */
  predicate Leaves(s: ClientState, event: Event) {
    match event
    case Stop => true
    case Start => !s.process.running
    case SetEmergencyDisabled(disabled) =>
      s.process.emergency != disabled && s.process.running && s.process.startedEmergency != disabled
    case _ => false
  }

  lemma DownFollows(s: ClientState)
    requires Placed(StageOf(s)) && s.process.running
    ensures Onward(s, Down(s)) && Onward(s, DownForPolicy(Down(s)))
    ensures Onward(s, Clear(Down(s).(process := Down(s).process.(terminationPending := false))))
  {
  }

  lemma DownUnplannedFollows(s: ClientState, env: Environment, expected: bool)
    requires Placed(StageOf(s)) && !s.process.running && !s.process.stopping && !s.reconnect.state.Waiting?
    ensures Onward(s, DownUnplanned(s, env, expected))
  {
  }

  /** The end of a generation that was being terminated: its session has been closed. */
  lemma TerminatedFollows(s: ClientState, env: Environment, relaunch: bool)
    requires Placed(StageOf(s)) && s.reconnect.terminationPending
    requires s.reconnect.terminationGeneration == s.process.generation
    requires relaunch ==> s.reconnect.state.Restarting?
    ensures Onward(s, if relaunch then LaunchProcess(Settled(s), env, true) else Settled(s))
  {
    if relaunch {
      LaunchProcessFollows(Settled(s), env, true);
      FollowsThrough(StageOf(s), StageOf(Settled(s)), StageOf(LaunchProcess(Settled(s), env, true)));
    }
  }

  lemma OnFinishedFollows(s: ClientState, env: Environment)
    requires Placed(StageOf(s)) && s.process.running
    ensures Onward(s, OnFinished(s, env))
  {
    var down := Down(s);
    DownFollows(s);
    var next := OnFinished(s, env);
    if down.process.policyRestart {
      assert next == DownForPolicy(down);
    } else if down.process.terminationPending {
      assert next == Clear(down.(process := down.process.(terminationPending := false)));
    } else if down.reconnect.terminationPending && down.reconnect.terminationGeneration == down.process.generation {
      var relaunch := !s.process.stopping && !down.process.suppressed && down.reconnect.state.Restarting?;
      TerminatedFollows(down, env, relaunch);
      assert next == if relaunch then LaunchProcess(Settled(down), env, true) else Settled(down);
      FollowsThrough(StageOf(s), StageOf(down), StageOf(next));
    } else {
      DownUnplannedFollows(down, env, s.process.stopping);
      assert next == DownUnplanned(down, env, s.process.stopping);
      FollowsThrough(StageOf(s), StageOf(down), StageOf(next));
    }
  }

  lemma StartupTimerFollows(s: ClientState, env: Environment)
    requires Placed(StageOf(s))
    ensures Onward(s, OnStartupTimer(s, env))
  {
    FallenFollows(StageOf(s));
    SurrenderFalls(s, env);
  }

  lemma ProbeTimerFollows(s: ClientState, env: Environment, probe: Probe)
    requires Placed(StageOf(s))
    ensures Onward(s, OnProbeTimer(s, env, probe))
  {
    FallenFollows(StageOf(s));
    SendHeartbeatStage(s.(heartbeat := s.heartbeat.(probes := s.heartbeat.probes - multiset{probe})), env, true);
  }

  lemma StabilityTimerStage(s: ClientState)
    ensures StageOf(OnStabilityTimer(s)) == StageOf(s)
  {
  }

  lemma TimerFollows(s: ClientState, env: Environment, event: Event)
    requires Placed(StageOf(s)) && Enabled(s, event)
    requires event.StartupTimer? || event.HeartbeatTimer? || event.DeadlineTimer? || event.ReconnectTimer?
             || event.StabilityTimer? || event.ProbeTimer?
    ensures Onward(s, Step(s, env, event))
  {
    match event {
      case StartupTimer => StartupTimerFollows(s, env);
      case HeartbeatTimer =>
        SendHeartbeatStage(s, env, false);
        FallsFollows(s, SendHeartbeat(s, env, false));
      case DeadlineTimer => HeartbeatTimeoutFollows(s, env);
      case ReconnectTimer => BeginReconnectFollows(s.(reconnect := s.reconnect.(timerActive := false)), env);
      case StabilityTimer =>
        StabilityTimerStage(s);
        FallsFollows(s, OnStabilityTimer(s));
      case ProbeTimer(probe) => ProbeTimerFollows(s, env, probe);
    }
  }

  lemma FailedToStartFollows(s: ClientState, env: Environment)
    requires Placed(StageOf(s)) && s.process.running
    ensures Onward(s, OnError(s.(process := s.process.(running := false)), env, false))
  {
    OnErrorFollows(s.(process := s.process.(running := false)), env, false);
  }

  lemma ProcessFollows(s: ClientState, env: Environment, event: Event)
    requires Placed(StageOf(s)) && Enabled(s, event)
    requires event.Read? || event.ErrorOccurred? || event.FailedToStart? || event.Finished?
    ensures Onward(s, Step(s, env, event))
  {
    match event {
      case Read(frames) =>
        FallenFollows(StageOf(s));
        FramesFollow(s, env, frames);
      case ErrorOccurred(crashed) => OnErrorFollows(s, env, crashed);
      case FailedToStart => FailedToStartFollows(s, env);
      case Finished => OnFinishedFollows(s, env);
    }
  }

  /** Leaving ends every usable session outside the idle state, and opens none in its generation. */
  predicate Left(a: Stage, b: Stage) {
    Placed(b) && a.generation <= b.generation && !Marooned(b) && (Over(a) && a.generation == b.generation ==> Over(b))
  }

  lemma OnStartLeaves(s: ClientState, env: Environment)
    requires Placed(StageOf(s)) && !s.process.running
    ensures Onward(s, OnStart(s, env)) || Left(StageOf(s), StageOf(OnStart(s, env)))
    ensures Marooned(StageOf(s)) ==> Left(StageOf(s), StageOf(OnStart(s, env)))
  {
    if s.reconnect.state.Waiting? || s.reconnect.state.Restarting? {
      FallenFollows(StageOf(s));
    } else {
      var s1 := s.(process := s.process.(suppressed := false, stopping := false),
                   reconnect := s.reconnect.(
                     timerActive := false, stabilityGeneration := 0, attempt := 0, cycleActive := false, state := Idle,
                     relaunches := Reset(s.reconnect.relaunches)));
      LaunchProcessFollows(s1, env, false);
    }
  }

  lemma OnStopLeaves(s: ClientState, env: Environment)
    requires Placed(StageOf(s))
    ensures Left(StageOf(s), StageOf(OnStop(s, env)))
  {
    SendRequestStage(Stopping(s), env, Plain(Shutdown), true);
  }

  lemma RestartForPolicyStage(s: ClientState, env: Environment)
    ensures StageOf(RestartForPolicy(s, env)) == StageOf(s).(stopping := true, suppressed := true, state := Idle)
  {
  }

  lemma PolicyFollows(s: ClientState, disabled: bool)
    requires Placed(StageOf(s))
    ensures Onward(s, Policy(s, disabled))
  {
  }

  lemma RestartingLeaves(s: ClientState, p: ClientState, env: Environment)
    requires Placed(StageOf(p)) && s.process.generation == p.process.generation
    requires Over(StageOf(s)) ==> Over(StageOf(p))
    ensures Left(StageOf(s), StageOf(RestartForPolicy(p, env)))
    ensures Left(StageOf(s), StageOf(Send(RestartForPolicy(p, env), env, Shutdown).0))
  {
    RestartForPolicyStage(p, env);
    SendRequestStage(RestartForPolicy(p, env), env, Plain(Shutdown), true);
  }

  lemma OnSetEmergencyFollows(s: ClientState, env: Environment, disabled: bool)
    requires Placed(StageOf(s))
    ensures var next := OnSetEmergency(s, env, disabled);
            if Leaves(s, SetEmergencyDisabled(disabled)) then Left(StageOf(s), StageOf(next)) else Onward(s, next)
  {
    var p, next := Policy(s, disabled), OnSetEmergency(s, env, disabled);
    PolicyFollows(s, disabled);
    if Leaves(s, SetEmergencyDisabled(disabled)) {
      RestartingLeaves(s, p, env);
      assert next == RestartForPolicy(p, env) || next == Send(RestartForPolicy(p, env), env, Shutdown).0;
    } else {
      FallenFollows(StageOf(s));
      assert next == s || next == p;
    }
  }

  lemma OnCompleteRecoveryFollows(s: ClientState, env: Environment, generation: nat, success: bool)
    requires Placed(StageOf(s)) && !FailsRecovery(s, CompleteRecovery(generation, success))
    ensures Onward(s, OnCompleteRecovery(s, env, generation, success))
  {
    StartupQueriesStage(Recovered(s), env);
  }

  lemma UnrecoveredStage(s: ClientState)
    requires Placed(StageOf(s)) && s.session.recoveryPending
    ensures Placed(StageOf(Unrecovered(s))) && Marooned(StageOf(Unrecovered(s)))
    ensures Unrecovered(s).process.generation == s.process.generation
  {
  }

  /** This step fails the recovery, or its failure is not left. */
  predicate Maroons(s: ClientState, event: Event) {
    FailsRecovery(s, event) || (Marooned(StageOf(s)) && !Leaves(s, event))
  }

  /** A usable session outside the idle state comes from a step that maroons it, and stays until it ends. */
  predicate Strands(s: ClientState, event: Event, next: ClientState) {
    && Placed(StageOf(next)) && s.process.generation <= next.process.generation
    && (Over(StageOf(s)) && s.process.generation == next.process.generation ==> Over(StageOf(next)))
    && (Marooned(StageOf(next)) ==> s.process.generation == next.process.generation && Maroons(s, event))
    && (Maroons(s, event) && s.process.generation == next.process.generation
        ==> Marooned(StageOf(next)) || Over(StageOf(next)))
  }

  lemma OnwardStrands(s: ClientState, event: Event, next: ClientState)
    requires Onward(s, next) && !Leaves(s, event) && !FailsRecovery(s, event)
    ensures Strands(s, event, next)
  {
  }

  lemma LeftStrands(s: ClientState, event: Event, next: ClientState)
    requires Left(StageOf(s), StageOf(next)) && Leaves(s, event)
    ensures Strands(s, event, next)
  {
  }

  lemma StartStrands(s: ClientState, env: Environment)
    requires Placed(StageOf(s))
    ensures Strands(s, Start, OnStart(s, env))
  {
    FallenFollows(StageOf(s));
    if !s.process.running {
      OnStartLeaves(s, env);
    }
  }

  lemma SetEmergencyStrands(s: ClientState, env: Environment, disabled: bool)
    requires Placed(StageOf(s))
    ensures Strands(s, SetEmergencyDisabled(disabled), OnSetEmergency(s, env, disabled))
  {
    OnSetEmergencyFollows(s, env, disabled);
    if Leaves(s, SetEmergencyDisabled(disabled)) {
      LeftStrands(s, SetEmergencyDisabled(disabled), OnSetEmergency(s, env, disabled));
    } else {
      OnwardStrands(s, SetEmergencyDisabled(disabled), OnSetEmergency(s, env, disabled));
    }
  }

  lemma CompleteRecoveryStrands(s: ClientState, env: Environment, generation: nat, success: bool)
    requires Placed(StageOf(s))
    ensures Strands(s, CompleteRecovery(generation, success), OnCompleteRecovery(s, env, generation, success))
  {
    if FailsRecovery(s, CompleteRecovery(generation, success)) {
      UnrecoveredStage(s);
    } else {
      OnCompleteRecoveryFollows(s, env, generation, success);
      OnwardStrands(s, CompleteRecovery(generation, success), OnCompleteRecovery(s, env, generation, success));
    }
  }

  lemma StopStrands(s: ClientState, env: Environment)
    requires Placed(StageOf(s))
    ensures Strands(s, Stop, OnStop(s, env))
  {
    OnStopLeaves(s, env);
    LeftStrands(s, Stop, OnStop(s, env));
  }

  predicate Restless(event: Event) {
    event.Start? || event.Stop? || event.SetEmergencyDisabled? || event.CompleteRecovery?
  }

  lemma OtherStepFollows(s: ClientState, env: Environment, event: Event)
    requires Placed(StageOf(s)) && !Restless(event)
    ensures Onward(s, Step(s, env, event))
  {
    if !Enabled(s, event) {
      FallenFollows(StageOf(s));
    } else {
      match event {
        case Ask(call, identified) =>
          SendRequestStage(s, env, call, identified || !IsSubscription(call.verb));
          FallsFollows(s, SendRequest(s, env, call, identified || !IsSubscription(call.verb)).0);
        case Abandon =>
          FallenFollows(StageOf(s));
          AbandonAmbiguousFollows(s, env);
        case Read(_) => ProcessFollows(s, env, event);
        case ErrorOccurred(_) => ProcessFollows(s, env, event);
        case FailedToStart => ProcessFollows(s, env, event);
        case Finished => ProcessFollows(s, env, event);
        case _ => TimerFollows(s, env, event);
      }
    }
  }

  lemma StepStrands(s: ClientState, env: Environment, event: Event)
    requires Placed(StageOf(s))
    ensures Strands(s, event, Step(s, env, event))
  {
    if Restless(event) {
      match event {
        case Start => StartStrands(s, env);
        case Stop => StopStrands(s, env);
        case SetEmergencyDisabled(disabled) => SetEmergencyStrands(s, env, disabled);
        case CompleteRecovery(generation, success) => CompleteRecoveryStrands(s, env, generation, success);
      }
    } else {
      OtherStepFollows(s, env, event);
      OnwardStrands(s, event, Step(s, env, event));
    }
  }

  // ---------------------------------------------------------------------
  // Runs

  predicate LeavesAt(s: ClientState, run: seq<Occurrence>, j: nat)
    requires j < |run|
  {
    Leaves(Run(s, run[..j]), run[j].event)
  }

  /** Step k fails the recovery of the generation in which the run ends, and no later step leaves. */
  predicate StrandedAt(s: ClientState, run: seq<Occurrence>, k: nat)
    requires k < |run|
  {
    && FailsRecovery(Run(s, run[..k]), run[k].event)
    && Run(s, run[..k]).process.generation == Run(s, run).process.generation
    && forall j | k < j < |run| :: !LeavesAt(s, run, j)
  }

  lemma {:induction false} RunSnoc(s: ClientState, run: seq<Occurrence>)
    requires run != []
    ensures var n := |run| - 1;
            Run(s, run) == Step(Run(s, run[..n]), run[n].env, run[n].event)
    decreases |run|
  {
    var n := |run| - 1;
    if n == 0 {
      assert run[1..] == [] && run[..0] == [];
    } else {
      RunSnoc(Step(s, run[0].env, run[0].event), run[1..]);
      assert run[1..][..n - 1] == run[..n][1..];
    }
  }

  lemma {:induction false} RunPlaced(s: ClientState, run: seq<Occurrence>)
    requires Placed(StageOf(s))
    ensures Placed(StageOf(Run(s, run)))
    decreases |run|
  {
    if run != [] {
      StepStrands(s, run[0].env, run[0].event);
      RunPlaced(Step(s, run[0].env, run[0].event), run[1..]);
    }
  }

  /** The last step of a run, from a placed state. */
  lemma LastStepStrands(s: ClientState, run: seq<Occurrence>, n: nat)
    requires Placed(StageOf(s)) && n + 1 == |run|
    ensures Placed(StageOf(Run(s, run[..n]))) && Strands(Run(s, run[..n]), run[n].event, Run(s, run))
  {
    RunSnoc(s, run);
    RunPlaced(s, run[..n]);
    StepStrands(Run(s, run[..n]), run[n].env, run[n].event);
  }

  /** Generations only grow. */
  lemma {:induction false} GenerationsGrow(s: ClientState, run: seq<Occurrence>, k: nat)
    requires Placed(StageOf(s)) && k <= |run|
    ensures Run(s, run[..k]).process.generation <= Run(s, run).process.generation
    decreases |run|
  {
    if k == |run| {
      assert run[..k] == run;
    } else {
      var n := |run| - 1;
      LastStepStrands(s, run, n);
      GenerationsGrow(s, run[..n], k);
      assert run[..n][..k] == run[..k];
    }
  }

  lemma PrefixLeaves(s: ClientState, run: seq<Occurrence>, n: nat)
    requires n <= |run|
    ensures forall j | 0 <= j < n :: LeavesAt(s, run[..n], j) == LeavesAt(s, run, j)
    ensures forall j | 0 <= j <= n :: run[..n][..j] == run[..j]
  {
    forall j | 0 <= j < n
      ensures LeavesAt(s, run[..n], j) == LeavesAt(s, run, j)
    {
      assert run[..n][..j] == run[..j];
    }
  }

  /** A failed recovery that was not left before the last step is not left if the last step does not leave. */
  lemma LaterStranded(s: ClientState, run: seq<Occurrence>, n: nat, k: nat)
    requires n + 1 == |run| && k < n && StrandedAt(s, run[..n], k)
    requires !Leaves(Run(s, run[..n]), run[n].event)
    requires Run(s, run[..n]).process.generation == Run(s, run).process.generation
    ensures StrandedAt(s, run, k)
  {
    PrefixLeaves(s, run, n);
    assert LeavesAt(s, run, n) == Leaves(Run(s, run[..n]), run[n].event);
    assert forall j | k < j < n :: !LeavesAt(s, run[..n], j);
  }

  lemma EarlierStranded(s: ClientState, run: seq<Occurrence>, n: nat, k: nat)
    requires n + 1 == |run| && k < n && StrandedAt(s, run, k)
    requires Run(s, run[..n]).process.generation == Run(s, run).process.generation
    ensures StrandedAt(s, run[..n], k) && !Leaves(Run(s, run[..n]), run[n].event)
  {
    PrefixLeaves(s, run, n);
    assert LeavesAt(s, run, n) == Leaves(Run(s, run[..n]), run[n].event);
    assert forall j | k < j < n :: !LeavesAt(s, run, j);
  }

  /** A usable session outside the idle state has a failed recovery behind it that was not left. */
  lemma {:induction false} MaroonedByFailure(s: ClientState, run: seq<Occurrence>) returns (k: nat)
    requires Placed(StageOf(s)) && !Marooned(StageOf(s)) && Marooned(StageOf(Run(s, run)))
    ensures k < |run| && StrandedAt(s, run, k)
    decreases |run|
  {
    assert run != [];
    var n := |run| - 1;
    LastStepStrands(s, run, n);
    if FailsRecovery(Run(s, run[..n]), run[n].event) {
      k := n;
    } else {
      k := MaroonedByFailure(s, run[..n]);
      LaterStranded(s, run, n, k);
    }
  }

  /** A failed recovery that was not left leaves its session usable until it ends. */
  lemma {:induction false} FailureMaroons(s: ClientState, run: seq<Occurrence>, k: nat)
    requires Placed(StageOf(s)) && k < |run| && StrandedAt(s, run, k)
    ensures Marooned(StageOf(Run(s, run))) || Over(StageOf(Run(s, run)))
    decreases |run|
  {
    var n := |run| - 1;
    LastStepStrands(s, run, n);
    if k < n {
      PrefixLeaves(s, run, n);
      GenerationsGrow(s, run[..n], k);
      EarlierStranded(s, run, n, k);
      FailureMaroons(s, run[..n], k);
    }
  }
}
