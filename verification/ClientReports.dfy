// How often the runtime client reports a request: exactly what a step, a read and a run add.

module ClientReports {
  import opened Capabilities
  import opened ClientState
  import opened ClientRequests
  import opened ClientInvariants
  import opened ClientSteps
  import opened ClientHeartbeats
  import opened ClientMessages
  import opened ClientRuns

  // ---------------------------------------------------------------------
  // What an operation may do to the reports of one id

  /** An id is given out, and the handshake belongs to the table as the invariant has it. */
  predicate Regular(s: ClientState, id: nat) {
    && id > 0
    && (id in s.requests.pending ==> id <= s.requests.next)
    && s.session.initializeId <= s.requests.next
    && (s.session.handshakeComplete ==> s.session.initializeId == 0)
  }

  /** Whether an id may still be reported: it is new, pending, or that of an open handshake. */
  function Credit(s: ClientState, id: nat): nat {
    if id > s.requests.next || id in s.requests.pending || id == s.session.initializeId then 1 else 0
  }

  function Reports(s: ClientState, id: nat): nat {
    Resolutions(s.requests.wire, id)
  }

  /** A report is made, and then the credit is gone. */
  predicate Settles(s: ClientState, next: ClientState, id: nat) {
    && Regular(next, id)
    && s.requests.next <= next.requests.next
    && Reports(s, id) <= Reports(next, id)
    && Reports(next, id) + Credit(next, id) <= Reports(s, id) + Credit(s, id)
  }

  /** An id that has been given out and is not pending. */
  predicate Gone(s: ClientState, id: nat) {
    id <= s.requests.next && id !in s.requests.pending
  }

  /** The same, and an interrupted handshake is not reported either. */
  predicate Spares(s: ClientState, next: ClientState, id: nat) {
    Settles(s, next, id) && (Gone(s, id) ==> Gone(next, id) && Reports(next, id) == Reports(s, id))
  }

  // ---------------------------------------------------------------------
  // Tearing down

  lemma {:induction false} RetireAllTouches(q: Requests, ids: seq<nat>)
    ensures RetireAll(q, ids) == q.(retired := RetireAll(q, ids).retired, order := RetireAll(q, ids).order)
    decreases |ids|
  {
    if ids != [] {
      RetireAllTouches(Retire(q, ids[0]), ids[1..]);
    }
  }

  lemma ClearSpares(s: ClientState, id: nat)
    requires Regular(s, id)
    ensures Spares(s, Clear(s), id) && Clear(s).session.initializeId == 0
  {
  }

  /** Failing pending requests reports them, and only an open handshake would keep its credit. */
  lemma FailAllSpares(s: ClientState, ids: set<nat>, env: Environment, id: nat)
    requires Regular(s, id) && ids <= s.requests.pending.Keys && (id == s.session.initializeId ==> id !in ids)
    ensures Spares(s, s.(requests := FailAll(s.requests, ids, env)), id)
  {
    RetireAllTouches(s.requests.(pending := s.requests.pending - ids), env.order(ids));
  }

  lemma FailPendingSpares(s: ClientState, env: Environment, id: nat)
    requires Regular(s, id) && (id == s.session.initializeId ==> id !in s.requests.pending)
    ensures Spares(s, FailPending(s, env), id)
  {
    FailAllSpares(s, s.requests.pending.Keys, env, id);
  }

  lemma SurrenderSpares(s: ClientState, env: Environment, id: nat)
    requires Regular(s, id)
    ensures Spares(s, Surrender(s, env), id) && Spares(s, GiveUp(s, env), id)
  {
    ClearSpares(Suppress(s), id);
    FailPendingSpares(Clear(Suppress(s)), env, id);
    ClearSpares(Suppress(Discard(s)), id);
    FailPendingSpares(Clear(Suppress(Discard(s))), env, id);
  }

  lemma RejectProtocolSpares(s: ClientState, env: Environment, id: nat)
    requires Regular(s, id)
    ensures Spares(s, RejectProtocol(s, env), id)
  {
    var cleared := Clear(Discard(Suppress(s)));
    ClearSpares(Discard(Suppress(s)), id);
    FailPendingSpares(if s.reconnect.cycleActive then SetState(cleared, Exhausted) else cleared, env, id);
  }

  /** Rejecting a handshake reports its id, whether it has been reported before or not. */
  lemma RejectInitializeSettles(s: ClientState, id: nat)
    requires Regular(s, id)
    ensures Settles(s, RejectInitialize(s), id)
    ensures Reports(RejectInitialize(s), id) == Reports(s, id) + if id == s.session.initializeId then 1 else 0
  {
  }

  lemma RejectFrameSettles(s: ClientState, env: Environment, id: nat)
    requires Regular(s, id)
    ensures Settles(s, RejectFrame(s, env), id)
  {
    RejectInitializeSettles(s, id);
    RejectProtocolSpares(s, env, id);
  }

  // ---------------------------------------------------------------------
  // Requests and heartbeats

  lemma TakenOrIssuedSpares(s: ClientState, call: Call, id: nat)
    requires Regular(s, id)
    ensures Spares(s, Taken(s), id) && Spares(s, Unwritten(s), id) && Spares(s, Issued(s, call), id)
  {
  }

  lemma SendIfSpares(s: ClientState, env: Environment, call: Call, admitted: bool, identified: bool, id: nat)
    requires Regular(s, id)
    ensures Spares(s, SendIf(s, env, call, admitted, identified).0, id)
  {
    TakenOrIssuedSpares(s, call, id);
    SurrenderSpares(Unwritten(s), env, id);
  }

  lemma SendRequestSpares(s: ClientState, env: Environment, call: Call, identified: bool, id: nat)
    requires Regular(s, id)
    ensures Spares(s, SendRequest(s, env, call, identified).0, id)
  {
    SendIfSpares(s, env, call, Admitted(s, env.platform, call), identified, id);
  }

  lemma QuerySpares(s: ClientState, env: Environment, capability: Capability, verb: Method, id: nat)
    requires Regular(s, id)
    ensures Spares(s, Query(s, env, capability, verb), id)
  {
    SendRequestSpares(s, env, Plain(verb), true, id);
  }

  lemma StartupQueriesSpare(s: ClientState, env: Environment, id: nat)
    requires Regular(s, id)
    ensures Spares(s, StartupQueries(s, env), id)
  {
    QuerySpares(s, env, Capability.RuntimeHealth, Method.RuntimeHealth, id);
    var s1 := Query(s, env, Capability.RuntimeHealth, Method.RuntimeHealth);
    QuerySpares(s1, env, Capability.RuntimeDegradations, Method.RuntimeDegradations, id);
    var s2 := Query(s1, env, Capability.RuntimeDegradations, Method.RuntimeDegradations);
    QuerySpares(s2, env, ModelCatalogReadOnly, ModelCatalog, id);
    var s3 := Query(s2, env, ModelCatalogReadOnly, ModelCatalog);
    QuerySpares(s3, env, ModelCatalogCacheReadOnly, ModelCatalogCache, id);
    var s4 := Query(s3, env, ModelCatalogCacheReadOnly, ModelCatalogCache);
    QuerySpares(s4, env, ModelCatalogRefreshStatusReadOnly, ModelCatalogRefreshStatus, id);
    var s5 := Query(s4, env, ModelCatalogRefreshStatusReadOnly, ModelCatalogRefreshStatus);
    QuerySpares(s5, env, ModelProfileReadOnly, ModelProfileList, id);
    var s6 := Query(s5, env, ModelProfileReadOnly, ModelProfileList);
    QuerySpares(s6, env, Capability.RuntimeRecoveryStatus, Method.RuntimeRecoveryStatus, id);
    QuerySpares(s6, env, Capability.RuntimeProjectionRecoveryStatus, Method.RuntimeProjectionRecoveryStatus, id);
  }

  lemma FailOrdinarySpares(s: ClientState, env: Environment, id: nat)
    requires Regular(s, id) && s.session.initializeId == 0
    ensures Spares(s, FailOrdinary(s, env), id) && FailOrdinary(s, env).session == s.session
  {
    FailAllSpares(s, Ordinary(s.requests.pending), env, id);
  }

  lemma BeatGivenUpSpares(s: ClientState, env: Environment, id: nat)
    requires Regular(s, id) && s.session.initializeId == 0
    ensures Spares(s, GiveUp(FailOrdinary(Unhealthy(s), env), env), id)
  {
    FailOrdinarySpares(Unhealthy(s), env, id);
    SurrenderSpares(FailOrdinary(Unhealthy(s), env), env, id);
  }

  lemma BeatIfSpares(s: ClientState, env: Environment, probe: bool, admitted: bool, id: nat)
    requires Regular(s, id) && s.session.initializeId == 0
    ensures Spares(s, BeatIf(s, env, probe, admitted), id)
  {
    BeatCases(s, env, probe);
    TakenOrIssuedSpares(s, Plain(RuntimeHeartbeat), id);
    var next := BeatIf(s, env, probe, admitted);
    if !admitted {
      BeatGivenUpSpares(s, env, id);
    } else {
      match Write(s, env, s.requests.next + 1) {
        case Written =>
          assert next == Beating(Issued(s, Plain(RuntimeHeartbeat)), s.requests.next + 1, probe);
        case TooLarge =>
          BeatGivenUpSpares(Unwritten(s), env, id);
        case Broken =>
          SurrenderSpares(Unwritten(s), env, id);
          assert next == GiveUp(Unwritten(s), env);
      }
    }
  }

  lemma SendHeartbeatSpares(s: ClientState, env: Environment, probe: bool, id: nat)
    requires Regular(s, id)
    ensures Spares(s, SendHeartbeat(s, env, probe), id)
  {
    if MayBeat(s, probe) {
      BeatIfSpares(Counted(s), env, probe, Admitted(Counted(s), env.platform, Plain(RuntimeHeartbeat)), id);
    }
  }

  // ---------------------------------------------------------------------
  // Launching and reconnecting

  lemma HandleRetryableSpares(s: ClientState, env: Environment, id: nat)
    requires Regular(s, id)
    ensures Spares(s, HandleRetryable(s, env), id)
  {
    SurrenderSpares(s, env, id);
    var scheduled := ScheduleReconnect(s);
    assert scheduled.requests == s.requests && scheduled.session == s.session;
    ClearSpares(scheduled, id);
    FailPendingSpares(Clear(scheduled), env, id);
  }

  lemma OnErrorSpares(s: ClientState, env: Environment, crashed: bool, id: nat)
    requires Regular(s, id)
    ensures Spares(s, OnError(s, env, crashed), id)
  {
    HandleRetryableSpares(s, env, id);
    SurrenderSpares(s, env, id);
  }

  lemma SendInitializeSpares(s: ClientState, env: Environment, id: nat)
    requires Regular(s, id) && !s.session.handshakeComplete
    ensures Spares(s, SendInitialize(s, env), id)
  {
    if s.process.running && s.session.initializeId == 0 {
      SendRequestSpares(s, env, Plain(Initialize), true, id);
      var (s1, new_) := Send(s, env, Initialize);
      var s2 := s1.(session := s1.session.(initializeId := new_, initializeGeneration := s1.process.generation));
      assert Spares(s, s2, id);
      HandleRetryableSpares(s2, env, id);
    }
  }

  lemma GenerationSpares(s: ClientState, id: nat)
    requires Regular(s, id)
    ensures Spares(s, Generation(s), id) && !Generation(s).session.handshakeComplete
  {
    ClearSpares(s, id);
  }

  lemma FailedStartSpares(s: ClientState, env: Environment, id: nat)
    requires Regular(s, id)
    ensures Spares(s, NotStarted(OnError(Running(s, false), env, false), env), id)
  {
    OnErrorSpares(Running(s, false), env, false, id);
    HandleRetryableSpares(OnError(Running(s, false), env, false), env, id);
  }

  lemma StartedSpares(s: ClientState, env: Environment, prelude: bool, id: nat)
    requires Regular(s, id) && !s.session.handshakeComplete
    ensures var up := Running(s, true);
            var s1 := up.(session := up.session.(startupGeneration := up.process.generation));
            Spares(s, if prelude then SendInitialize(s1, env) else HandleRetryable(s1, env), id)
  {
    var up := Running(s, true);
    var s1 := up.(session := up.session.(startupGeneration := up.process.generation));
    SendInitializeSpares(s1, env, id);
    HandleRetryableSpares(s1, env, id);
  }

  lemma LaunchedSpares(s: ClientState, env: Environment, id: nat)
    requires Regular(s, id) && !s.session.handshakeComplete
    ensures Spares(s, Launched(s, env), id)
  {
    match env.launch {
      case StartFailed => FailedStartSpares(s, env, id);
      case Started(prelude) => StartedSpares(s, env, prelude, id);
      case _ => HandleRetryableSpares(Running(s, true), env, id);
    }
  }

  lemma LaunchProcessSpares(s: ClientState, env: Environment, reconnect: bool, id: nat)
    requires Regular(s, id)
    ensures Spares(s, LaunchProcess(s, env, reconnect), id)
  {
    var s1 := if reconnect then s.(reconnect := s.reconnect.(relaunches := Relaunched(s.reconnect.relaunches))) else s;
    GenerationSpares(s1, id);
    LaunchedSpares(Generation(s1), env, id);
  }

  lemma AbandonAmbiguousSpares(s: ClientState, env: Environment, id: nat)
    requires Regular(s, id)
    ensures Spares(s, AbandonAmbiguous(s, env), id)
  {
    var s1 := Discard(Unhealthy(s));
    SurrenderSpares(s1, env, id);
    ClearSpares(Owing(s1), id);
    FailPendingSpares(Clear(Owing(s1)), env, id);
    LaunchProcessSpares(Settled(Terminating(s1, env)), env, true, id);
  }

  lemma UnbeatenSpares(s: ClientState, id: nat)
    requires Regular(s, id)
    ensures Spares(s, Unbeaten(s), id) && Unbeaten(s).session == s.session
  {
  }

  /** What follows once the outstanding heartbeat is gone. */
  lemma TimedOutSpares(s: ClientState, env: Environment, id: nat)
    requires Regular(s, id) && s.session.initializeId == 0
    ensures Spares(s, AbandonAmbiguous(s, env), id)
    ensures Spares(s, ScheduleProbe(FailOrdinary(Unhealthy(s), env)), id)
  {
    AbandonAmbiguousSpares(s, env, id);
    FailOrdinarySpares(Unhealthy(s), env, id);
  }

  lemma HeartbeatTimeoutSpares(s: ClientState, env: Environment, id: nat)
    requires Regular(s, id)
    ensures Spares(s, HeartbeatTimeout(s, env), id)
  {
    if DeadlineCurrent(s) {
      UnbeatenSpares(s, id);
      TimedOutSpares(Unbeaten(s), env, id);
    }
  }

  // ---------------------------------------------------------------------
  // Messages

  lemma AnswerSettles(s: ClientState, answered: nat, id: nat)
    requires Regular(s, id) && s.session.initializeId == 0 && answered in s.requests.pending
    ensures Settles(s, Answer(s, answered), id)
  {
  }

  /** The failure of a heartbeat is reported once although its request is retired afterwards. */
  lemma HeartbeatErrorSettles(s: ClientState, env: Environment, failed: nat, id: nat)
    requires Inv(s) && Regular(s, id) && s.session.handshakeComplete
    requires failed in s.requests.pending && s.requests.pending[failed].verb.RuntimeHeartbeat?
    ensures Settles(s, HeartbeatTimeout(Reported(s, failed), env), id)
  {
    assert PendingOk(s.requests, failed, s.process.generation);
    assert failed == s.heartbeat.id && DeadlineCurrent(s);
    var reported := Unbeaten(Reported(s, failed));
    assert Settles(s, reported, id) && reported.session == s.session;
    TimedOutSpares(reported, env, id);
  }

  lemma ProcessErrorSettles(s: ClientState, env: Environment, answered: nat, body: Body, id: nat)
    requires Inv(s) && Regular(s, id) && s.session.handshakeComplete
    requires answered in s.requests.pending && body.ErrorBody?
    ensures Settles(s, ProcessError(s, env, answered, s.requests.pending[answered].verb, body), id)
  {
    RejectProtocolSpares(s, env, id);
    AnswerSettles(s, answered, id);
    if s.requests.pending[answered].verb.RuntimeHeartbeat? {
      HeartbeatErrorSettles(s, env, answered, id);
    }
  }

  lemma ProcessResultSettles(s: ClientState, env: Environment, answered: nat, verb: Method, body: Body, id: nat)
    requires Regular(s, id) && s.session.handshakeComplete && answered in s.requests.pending && body.ResultBody?
    ensures Settles(s, ProcessResult(s, env, answered, verb, body), id)
  {
    RejectProtocolSpares(s, env, id);
    AnswerSettles(s, answered, id);
  }

  lemma AcceptInitializeSettles(s: ClientState, env: Environment, hello: InitializeResult, id: nat)
    requires Regular(s, id) && s.session.initializeId in s.requests.pending
    ensures Settles(s, AcceptInitialize(s, env, hello), id)
  {
    var s1 := Negotiated(s, hello);
    assert Settles(s, s1, id) && s1.session.initializeId == 0;
    RejectProtocolSpares(s1, env, id);
    SendHeartbeatSpares(s1, env, false, id);
    var s2 := if s1.heartbeat.negotiated then SendHeartbeat(s1, env, false) else s1;
    StartupQueriesSpare(s2, env, id);
  }

  lemma DispatchSettles(s: ClientState, env: Environment, answered: nat, body: Body, id: nat)
    requires Inv(s) && Regular(s, id) && answered in s.requests.pending && answered != 0
    ensures Settles(s, Dispatch(s, env, answered, s.requests.pending[answered].verb, body), id)
  {
    RejectFrameSettles(s, env, id);
    RejectProtocolSpares(s, env, id);
    RejectInitializeSettles(s, id);
    var verb := s.requests.pending[answered].verb;
    if s.session.handshakeComplete {
      if body.ErrorBody? {
        ProcessErrorSettles(s, env, answered, body, id);
      } else if body.ResultBody? {
        ProcessResultSettles(s, env, answered, verb, body, id);
      }
    } else if body.ResultBody? && answered == s.session.initializeId {
      AcceptInitializeSettles(s, env, body.hello, id);
    }
  }

  lemma ProcessFrameSettles(s: ClientState, env: Environment, frame: Frame, id: nat)
    requires Inv(s) && Regular(s, id)
    ensures Settles(s, ProcessFrame(s, env, frame), id)
  {
    RejectFrameSettles(s, env, id);
    if frame.Response? && PendingCurrent(s, frame.id) {
      DispatchSettles(s, env, frame.id, frame.body, id);
    }
  }

  lemma {:induction false} ProcessFramesSettle(s: ClientState, env: Environment, frames: seq<Frame>, id: nat)
    requires Fair(env) && Inv(s) && Regular(s, id)
    ensures Settles(s, ProcessFrames(s, env, frames), id)
    decreases |frames|
  {
    if frames != [] {
      RejectProtocolSpares(s, env, id);
      ProcessFrameKeeps(s, env, frames[0]);
      ProcessFrameSettles(s, env, frames[0], id);
      ProcessFramesSettle(ProcessFrame(s, env, frames[0]), env, frames[1..], id);
    }
  }

  // ---------------------------------------------------------------------
  // A handshake that a policy change has interrupted

  /** The open handshake has been reported: its id is still with the session, but not in the table. */
  predicate IsInterrupted(s: ClientState, id: nat) {
    id != 0 && id == s.session.initializeId && id !in s.requests.pending
  }

  /** A frame that is rejected while a handshake is open and nothing is pending. */
  predicate Faulty(frame: Frame) {
    frame.TooLong? || frame.Undecodable? || frame.Notification? || frame.decoding.Rejected?
  }

  predicate HasFault(frames: seq<Frame>) {
    exists i | 0 <= i < |frames| :: Faulty(frames[i])
  }

  lemma InterruptedFrame(s: ClientState, env: Environment, frame: Frame, id: nat)
    requires Inv(s) && IsInterrupted(s, id)
    ensures ProcessFrame(s, env, frame) == if Faulty(frame) then RejectInitialize(s) else s
    ensures FrameLimit(s) > 0
  {
  }

  /** A whole read reports an interrupted handshake once more exactly if it holds a faulty frame. */
  lemma {:induction false} InterruptedFrames(s: ClientState, env: Environment, frames: seq<Frame>, id: nat)
    requires Fair(env) && Inv(s) && IsInterrupted(s, id)
    ensures Reports(ProcessFrames(s, env, frames), id) == Reports(s, id) + if HasFault(frames) then 1 else 0
    decreases |frames|
  {
    if frames != [] {
      InterruptedFrame(s, env, frames[0], id);
      if Faulty(frames[0]) {
        RejectInitializeKeeps(s);
        RejectInitializeSettles(s, id);
        ProcessFramesSettle(RejectInitialize(s), env, frames[1..], id);
      } else {
        InterruptedFrames(s, env, frames[1..], id);
        assert HasFault(frames) <==> HasFault(frames[1..]) by {
          assert forall i | 0 < i < |frames| :: frames[i] == frames[1..][i - 1];
        }
      }
    }
  }

  // ---------------------------------------------------------------------
  // Steps

  /** What reports an interrupted handshake again: a read with a faulty frame while output is still looked at. */
  predicate ReportsAgain(s: ClientState, event: Event, id: nat) {
    IsInterrupted(s, id) && !s.process.discardOutput && event.Read? && HasFault(event.frames)
  }

  lemma CallSpares(s: ClientState, env: Environment, event: Event, id: nat)
    requires Regular(s, id)
    requires event.Start? || event.Stop? || event.Ask? || event.Abandon? || event.CompleteRecovery?
    ensures Spares(s, Step(s, env, event), id)
  {
    match event {
      case Start =>
        var s1 := s.(process := s.process.(suppressed := false, stopping := false),
                     reconnect := s.reconnect.(
                       timerActive := false, stabilityGeneration := 0, attempt := 0, cycleActive := false, state := Idle,
                       relaunches := Reset(s.reconnect.relaunches)));
        LaunchProcessSpares(s1, env, false, id);
      case Stop => SendRequestSpares(Stopping(s), env, Plain(Shutdown), true, id);
      case Ask(call, identified) => SendRequestSpares(s, env, call, identified || !IsSubscription(call.verb), id);
      case Abandon => AbandonAmbiguousSpares(s, env, id);
      case CompleteRecovery(_, _) => StartupQueriesSpare(Recovered(s), env, id);
    }
  }

  lemma TimerSpares(s: ClientState, env: Environment, event: Event, id: nat)
    requires Regular(s, id)
    requires event.StartupTimer? || event.HeartbeatTimer? || event.DeadlineTimer? || event.ReconnectTimer?
             || event.StabilityTimer? || event.ProbeTimer?
    ensures Spares(s, Step(s, env, event), id)
  {
    match event {
      case StartupTimer => SurrenderSpares(s, env, id);
      case HeartbeatTimer => SendHeartbeatSpares(s, env, false, id);
      case DeadlineTimer => HeartbeatTimeoutSpares(s, env, id);
      case ReconnectTimer => BeginReconnectSpares(s.(reconnect := s.reconnect.(timerActive := false)), env, id);
      case StabilityTimer =>
      case ProbeTimer(probe) =>
        SendHeartbeatSpares(s.(heartbeat := s.heartbeat.(probes := s.heartbeat.probes - multiset{probe})), env, true, id);
    }
  }

  lemma BeginReconnectSpares(s: ClientState, env: Environment, id: nat)
    requires Regular(s, id)
    ensures Spares(s, BeginReconnect(s, env), id)
  {
    LaunchProcessSpares(SetState(s.(reconnect := s.reconnect.(scheduledGeneration := 0)), Restarting), env, true, id);
  }

  lemma DownUnplannedSpares(s: ClientState, env: Environment, expected: bool, id: nat)
    requires Regular(s, id)
    ensures Spares(s, DownUnplanned(s, env, expected), id)
  {
    ClearSpares(s, id);
    FailPendingSpares(Clear(s), env, id);
    var failed := FailPending(Clear(s), env);
    assert ScheduleReconnect(failed).requests == failed.requests && ScheduleReconnect(failed).session == failed.session;
  }

  lemma OnFinishedSpares(s: ClientState, env: Environment, id: nat)
    requires Regular(s, id)
    ensures Spares(s, OnFinished(s, env), id)
  {
    var down := Down(s);
    if down.process.policyRestart {
      ClearSpares(down, id);
    } else if down.process.terminationPending {
      ClearSpares(down.(process := down.process.(terminationPending := false)), id);
    } else if down.reconnect.terminationPending && down.reconnect.terminationGeneration == down.process.generation {
      LaunchProcessSpares(Settled(down), env, true, id);
    } else {
      DownUnplannedSpares(down, env, s.process.stopping, id);
    }
  }

  lemma StepSpares(s: ClientState, env: Environment, event: Event, id: nat)
    requires Regular(s, id) && !event.Read? && !event.SetEmergencyDisabled?
    ensures Spares(s, Step(s, env, event), id)
  {
    if Enabled(s, event) {
      match event {
        case ErrorOccurred(crashed) => OnErrorSpares(s, env, crashed, id);
        case FailedToStart => OnErrorSpares(s.(process := s.process.(running := false)), env, false, id);
        case Finished => OnFinishedSpares(s, env, id);
        case Start => CallSpares(s, env, event, id);
        case Stop => CallSpares(s, env, event, id);
        case Ask(_, _) => CallSpares(s, env, event, id);
        case Abandon => CallSpares(s, env, event, id);
        case CompleteRecovery(_, _) => CallSpares(s, env, event, id);
        case _ => TimerSpares(s, env, event, id);
      }
    }
  }

  /** Everything pending is reported once, and an open handshake keeps its id. */
  lemma RestartReports(s: ClientState, env: Environment, id: nat)
    requires Regular(s, id)
    ensures var next := RestartForPolicy(s, env);
            && next.session == s.session && next.requests.next == s.requests.next && next.requests.pending == map[]
            && Reports(next, id) == Reports(s, id) + if id in s.requests.pending then 1 else 0
  {
    var q := Report(s.requests, PolicyChanged(s.session.initializeId));
    RetireAllTouches(q.(pending := q.pending - q.pending.Keys), env.order(q.pending.Keys));
    assert q.pending - q.pending.Keys == map[];
    assert Resolutions(q.wire, id) == Reports(s, id);
    assert RestartForPolicy(s, env).requests == FailAll(q, q.pending.Keys, env);
  }

  /** A change of policy reports what is pending, once; an open handshake alone keeps its credit. */
  lemma PolicyReports(s: ClientState, env: Environment, disabled: bool, id: nat)
    requires Regular(s, id)
    ensures var next := OnSetEmergency(s, env, disabled);
            && Reports(next, id) <= Reports(s, id) + Credit(s, id)
            && (Gone(s, id) ==> Reports(next, id) == Reports(s, id))
  {
    if s.process.emergency != disabled && s.process.running && s.process.startedEmergency != disabled {
      RestartReports(Policy(s, disabled), env, id);
      SendRequestSpares(RestartForPolicy(Policy(s, disabled), env), env, Plain(Shutdown), true, id);
    }
  }

  /** A read reports an id that is not pending only if its handshake was interrupted and a frame is faulty. */
  lemma ReadReports(s: ClientState, env: Environment, frames: seq<Frame>, id: nat)
    requires Fair(env) && Inv(s) && Regular(s, id)
    ensures Settles(s, OnRead(s, env, frames), id)
    ensures IsInterrupted(s, id)
            ==> Reports(OnRead(s, env, frames), id) == Reports(s, id) + if ReportsAgain(s, Read(frames), id) then 1 else 0
  {
    ProcessFramesSettle(s, env, frames, id);
    if IsInterrupted(s, id) {
      InterruptedFrames(s, env, frames, id);
    }
  }

  /** An interrupted handshake is reported by the next step exactly if that is a read with a faulty frame. */
  lemma InterruptedStep(s: ClientState, env: Environment, event: Event, id: nat)
    requires Fair(env) && Inv(s) && IsInterrupted(s, id)
    ensures Reports(Step(s, env, event), id) == Reports(s, id) + if ReportsAgain(s, event, id) then 1 else 0
  {
    match event {
      case Read(frames) => ReadReports(s, env, frames, id);
      case SetEmergencyDisabled(disabled) => PolicyReports(s, env, disabled, id);
      case _ => StepSpares(s, env, event, id);
    }
  }

  /** An id that is neither pending nor that of an open handshake is never reported again. */
  lemma GoneStaysSilent(s: ClientState, env: Environment, event: Event, id: nat)
    requires Fair(env) && Inv(s) && id > 0 && Gone(s, id) && id != s.session.initializeId
    ensures Reports(Step(s, env, event), id) == Reports(s, id)
  {
    RegularIds(s, id);
    match event {
      case Read(frames) => ReadReports(s, env, frames, id);
      case SetEmergencyDisabled(disabled) => PolicyReports(s, env, disabled, id);
      case _ => StepSpares(s, env, event, id);
    }
  }

  /** What has not been reported yet is reported at most once in a step. */
  lemma FirstReport(s: ClientState, env: Environment, event: Event, id: nat)
    requires Fair(env) && Inv(s) && Regular(s, id) && Reports(s, id) == 0
    ensures Reports(Step(s, env, event), id) <= 1
  {
    match event {
      case Read(frames) => ReadReports(s, env, frames, id);
      case SetEmergencyDisabled(disabled) => PolicyReports(s, env, disabled, id);
      case _ => StepSpares(s, env, event, id);
    }
  }

  lemma RegularIds(s: ClientState, id: nat)
    requires Inv(s) && id > 0
    ensures Regular(s, id)
    ensures id in s.requests.pending || id > s.requests.next ==> Reports(s, id) == 0
    ensures IsInterrupted(s, id) ==> Reports(s, id) == 1
  {
    assert id in s.requests.pending ==> PendingOk(s.requests, id, s.process.generation);
  }

  /** A policy change reports an open handshake but leaves it open, exactly when it restarts the runtime. */
  lemma PolicyChangeInterrupts(s: ClientState, env: Environment, disabled: bool)
    requires Inv(s) && s.session.initializeId in s.requests.pending && s.session.initializeId != 0
    ensures var id := s.session.initializeId;
            var next := OnSetEmergency(s, env, disabled);
            var restarts := s.process.emergency != disabled && s.process.running && s.process.startedEmergency != disabled;
            && next.session.initializeId == id && next.process.discardOutput == s.process.discardOutput
            && (IsInterrupted(next, id) <==> restarts)
            && Reports(next, id) == if restarts then 1 else 0
  {
    RegularIds(s, s.session.initializeId);
    RestartReports(Policy(s, disabled), env, s.session.initializeId);
  }

  /** One step makes it two reports exactly if it reports an interrupted handshake again. */
  lemma StepReportsTwice(s: ClientState, env: Environment, event: Event, id: nat)
    requires Fair(env) && Inv(s)
    ensures Reports(Step(s, env, event), id) == 2 <==> Reports(s, id) == 2 || ReportsAgain(s, event, id)
  {
    StepKeeps(s, env, event);
    if id != 0 {
      RegularIds(s, id);
      if IsInterrupted(s, id) {
        InterruptedStep(s, env, event, id);
      } else if Gone(s, id) {
        GoneStaysSilent(s, env, event, id);
      } else {
        FirstReport(s, env, event, id);
      }
    }
  }

  // ---------------------------------------------------------------------
  // Runs

  /** Step k of the run finds the handshake with this id interrupted and reports it again. */
  predicate ReportsAgainAt(s: ClientState, run: seq<Occurrence>, k: nat, id: nat)
    requires k < |run|
  {
    ReportsAgain(Run(s, run[..k]), run[k].event, id)
  }

  lemma LaterStep(s: ClientState, run: seq<Occurrence>, k: nat)
    requires 0 < k < |run|
    ensures Run(s, run[..k]) == Run(Step(s, run[0].env, run[0].event), run[1..][..k - 1])
    ensures run[k] == run[1..][k - 1]
  {
    assert run[..k][1..] == run[1..][..k - 1];
  }

  /** A step that reports again is the first one or a later one. */
  lemma LaterReport(s: ClientState, run: seq<Occurrence>, id: nat)
    requires run != []
    ensures (exists k | 0 <= k < |run| :: ReportsAgainAt(s, run, k, id))
            <==> ReportsAgain(s, run[0].event, id)
                 || exists k | 0 <= k < |run| - 1 :: ReportsAgainAt(Step(s, run[0].env, run[0].event), run[1..], k, id)
  {
    var s1 := Step(s, run[0].env, run[0].event);
    assert run[..0] == [];
    assert ReportsAgainAt(s, run, 0, id) == ReportsAgain(s, run[0].event, id);
    forall k | 0 <= k < |run| - 1
      ensures ReportsAgainAt(s1, run[1..], k, id) == ReportsAgainAt(s, run, k + 1, id)
    {
      LaterStep(s, run, k + 1);
    }
    if k :| 0 < k < |run| && ReportsAgainAt(s, run, k, id) {
      assert ReportsAgainAt(s1, run[1..], k - 1, id);
    }
  }

  /** An id is reported twice exactly if some step reports its interrupted handshake again. */
  lemma {:induction false} ReportedTwiceExactly(s: ClientState, run: seq<Occurrence>, id: nat)
    requires Inv(s) && FairRun(run)
    ensures Reports(Run(s, run), id) == 2
            <==> Reports(s, id) == 2 || exists k | 0 <= k < |run| :: ReportsAgainAt(s, run, k, id)
    decreases |run|
  {
    if run != [] {
      var first, rest := run[0], run[1..];
      var s1 := Step(s, first.env, first.event);
      StepReportsTwice(s, first.env, first.event, id);
      StepKeeps(s, first.env, first.event);
      ReportedTwiceExactly(s1, rest, id);
      LaterReport(s, run, id);
    }
  }
}
