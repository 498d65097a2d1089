// The runtime client as an object (include/agent_runtime_client.h, src/agent_runtime_client.cpp):
// its methods, statement by statement. Each method is proved to compute the function of
// ClientState.dfy that the results about runs are stated for. The request table is held in fields
// of its own; the scalar fields are held together by concern.

module AgentRuntimeClient {
  import opened Capabilities
  import opened ClientState
  import Spec = ClientState

  lemma InsertedAndRemoved(pending: map<nat, Pending>, id: nat, request: Pending)
    ensures pending[id := request] - {id} == pending - {id}
  {
  }

  lemma SendIfCases(s: ClientState, env: Environment, call: Call)
    ensures SendIf(s, env, call, true, true)
         == match Write(s, env, s.requests.next + 1)
            case Written => (Issued(s, call), s.requests.next + 1)
            case TooLarge => (Unwritten(s), 0)
            case Broken => (GiveUp(Unwritten(s), env), 0)
  {
  }

  class AgentRuntimeClient {
    var process: Process
    var session: Session
    var heartbeat: Heartbeat
    var reconnect: Reconnect

    var nextRequestId: nat
    var pendingRequests: map<nat, Pending>
    var retiredResponseIds: set<nat>
    var retiredResponseOrder: seq<nat>
    ghost var wire: Wire

    ghost function Table(): Requests
      reads this
    {
      Requests(nextRequestId, pendingRequests, retiredResponseIds, retiredResponseOrder, wire)
    }

    /** The value that the object stands for. */
    ghost function State(): ClientState
      reads this
    {
      ClientState(process, session, heartbeat, reconnect, Table())
    }

    constructor (backoff: seq<int>)
      ensures State() == Initial(backoff)
    {
      process := Process(false, 0, false, false, false, false, false, false, false);
      session := CLOSED_SESSION;
      heartbeat := Heartbeat(false, false, 0, 0, NoNonce, 0, 0, 0, 0, multiset{}, NoBeat);
      reconnect := Reconnect(Delays(backoff), 0, Idle, 0, false, 0, 0, false, false, NoRelaunch);
      nextRequestId, pendingRequests, retiredResponseIds, retiredResponseOrder, wire := 0, map[], {}, [], Silence;
    }

    // -------------------------------------------------------------------
    // Retired and pending requests

    method RetireResponseId(id: nat)
      modifies `retiredResponseIds, `retiredResponseOrder
      ensures Table() == Retire(old(Table()), id)
    {
      if id == 0 || id in retiredResponseIds {
        return;
      }
      retiredResponseIds := retiredResponseIds + {id};
      retiredResponseOrder := retiredResponseOrder + [id];
      while |retiredResponseOrder| > MAXIMUM_RETIRED_RESPONSE_IDS
        invariant Trim(retiredResponseIds, retiredResponseOrder)
               == Trim(old(retiredResponseIds) + {id}, old(retiredResponseOrder) + [id])
        decreases |retiredResponseOrder|
      {
        retiredResponseIds := retiredResponseIds - {retiredResponseOrder[0]};
        retiredResponseOrder := retiredResponseOrder[1..];
      }
    }

    method RemovePendingRequest(id: nat)
      modifies `pendingRequests
      ensures Table() == Remove(old(Table()), id)
    {
      pendingRequests := pendingRequests - {id};
    }

    method FailPending(env: Environment)
      modifies `pendingRequests, `retiredResponseIds, `retiredResponseOrder, `wire
      ensures Table() == FailAll(old(Table()), old(pendingRequests.Keys), env)
    {
      ghost var failed := pendingRequests.Keys;
      var ids := env.order(pendingRequests.Keys);
      assert pendingRequests - pendingRequests.Keys == map[];
      pendingRequests := map[];
      ghost var emptied := Table();
      var i := 0;
      while i < |ids|
        invariant 0 <= i <= |ids|
        invariant RetireAll(Table(), ids[i..]) == RetireAll(emptied, ids)
        invariant wire == old(wire)
      {
        RetireResponseId(ids[i]);
        assert ids[i..][1..] == ids[i + 1..];
        i := i + 1;
      }
      wire := After(wire, Failed(failed));
    }

    method FailOrdinaryPending(env: Environment)
      requires Fair(env)
      modifies `pendingRequests, `retiredResponseIds, `retiredResponseOrder, `wire
      ensures Table() == FailAll(old(Table()), old(Ordinary(pendingRequests)), env)
    {
      var ordinary := Ordinary(pendingRequests);
      var ids := env.order(ordinary);
      assert Enumerates(ids, ordinary);
      ghost var removed := old(Table()).(pending := pendingRequests - ordinary);
      var i := 0;
      while i < |ids|
        invariant 0 <= i <= |ids|
        invariant RetireAll(Table().(pending := removed.pending), ids[i..]) == RetireAll(removed, ids)
        invariant wire == old(wire)
        invariant pendingRequests == old(pendingRequests) - set k | 0 <= k < i :: ids[k]
      {
        RetireResponseId(ids[i]);
        RemovePendingRequest(ids[i]);
        assert ids[i..][1..] == ids[i + 1..];
        i := i + 1;
      }
      assert (set k | 0 <= k < |ids| :: ids[k]) == ordinary;
      wire := After(wire, Failed(ordinary));
    }

    // -------------------------------------------------------------------
    // Tearing a connection down

    method SetReconnectState(state: ReconnectState)
      modifies `reconnect
      ensures reconnect == old(reconnect).(state := state)
    {
      reconnect := reconnect.(state := state);
    }

    method SuppressAutomaticReconnect()
      modifies `process, `reconnect
      ensures State() == Suppress(old(State()))
    {
      reconnect := reconnect.(timerActive := false);
      reconnect := reconnect.(stabilityGeneration := 0);
      reconnect := reconnect.(scheduledGeneration := 0);
      reconnect := reconnect.(terminationPending := false, terminationGeneration := 0);
      reconnect := reconnect.(cycleActive := false);
      process := process.(suppressed := true);
    }

    method ClearNegotiationState()
      modifies this
      ensures State() == Clear(old(State()))
    {
      session := session.(startupGeneration := 0);
      if heartbeat.id != 0 {
        RetireResponseId(heartbeat.id);
        RemovePendingRequest(heartbeat.id);
      }
      session := session.(ready := false);
      heartbeat := heartbeat.(negotiated := false, healthy := false);
      session := session.(recoveryMode := false, handshakeComplete := false);
      session := session.(initializeId := 0, initializeGeneration := 0);
      heartbeat := heartbeat.(id := 0, deadlineId := 0, nonce := NoNonce);
      heartbeat := heartbeat.(generation := 0, deadlineGeneration := 0, recoveryAttempt := 0);
      reconnect := reconnect.(stabilityGeneration := 0);
      session := session.(recoveryPending := false);
      session := session.(capabilities := {}, frameLimit := 0);
    }

    method RejectProtocolMessage(env: Environment)
      modifies this
      ensures State() == RejectProtocol(old(State()), env)
    {
      var reconnecting := reconnect.cycleActive;
      SuppressAutomaticReconnect();
      process := process.(discardOutput := true);
      ClearNegotiationState();
      if reconnecting {
        SetReconnectState(Exhausted);
      }
      FailPending(env);
    }

    method RejectInitializeResponse()
      modifies this
      ensures State() == RejectInitialize(old(State()))
    {
      var reconnecting := reconnect.cycleActive;
      var id := session.initializeId;
      if id != 0 {
        RetireResponseId(id);
        RemovePendingRequest(id);
      }
      SuppressAutomaticReconnect();
      process := process.(discardOutput := true);
      ClearNegotiationState();
      if reconnecting {
        SetReconnectState(Exhausted);
      }
      wire := After(wire, Failed(if id != 0 then {id} else {}));
    }

    /** The statements that several handlers share when they end a connection for good. */
    method TearDown(env: Environment)
      modifies this
      ensures State() == GiveUp(old(State()), env)
    {
      SuppressAutomaticReconnect();
      process := process.(discardOutput := true);
      ClearNegotiationState();
      FailPending(env);
      SetReconnectState(Exhausted);
    }

    // -------------------------------------------------------------------
    // Requests

    method IsAdmitted(platform: Platform, call: Call) returns (admitted: bool)
      ensures admitted == Admitted(State(), platform, call)
    {
      if !process.running {
        return false;
      }
      if !call.verb.Initialize? && !session.handshakeComplete {
        return false;
      }
      if process.emergency && !EmergencyAllowed(call.verb) {
        return false;
      }
      if heartbeat.negotiated && !heartbeat.healthy && !IsLivenessControl(call.verb) {
        return false;
      }
      if session.recoveryPending && !IsReconnectRecovery(call.verb) {
        return false;
      }
      return call.verb.Initialize? || Required(call, platform) <= session.capabilities;
    }

    /** sendRequest: the new id, or zero after a failure report. */
    method SendRequest(env: Environment, call: Call, identified: bool) returns (id: nat)
      modifies this
      ensures (State(), id) == Spec.SendRequest(old(State()), env, call, identified)
    {
      var admitted := IsAdmitted(env.platform, call);
      if !admitted {
        return 0;
      }
      id := Transmit(env, call, identified);
    }

    /** The part of sendRequest behind its checks, with writeMessage; the table is not read while the frame is written. */
    method Transmit(env: Environment, call: Call, identified: bool) returns (id: nat)
      modifies this
      ensures State() == SendIf(old(State()), env, call, true, identified).0
      ensures id == SendIf(old(State()), env, call, true, identified).1
    {
      if !identified {
        nextRequestId := nextRequestId + 1;
        assert State() == Taken(old(State()));
        return 0;
      }
      id := nextRequestId + 1;
      SendIfCases(State(), env, call);
      var maximumFrameBytes := if session.handshakeComplete then session.frameLimit else MAXIMUM_FRAME_BYTES;
      var written := if maximumFrameBytes <= 0 then TooLarge else env.write(id);
      if written.Written? {
        Insert(id, call);
        return;
      }
      Refuse(id, call.verb);
      if written.Broken? {
        TearDown(env);
      }
      id := 0;
    }

    /** A request whose frame is written. */
    method Insert(id: nat, call: Call)
      requires id == nextRequestId + 1
      modifies `nextRequestId, `pendingRequests, `wire
      ensures State() == Issued(old(State()), call)
    {
      nextRequestId := id;
      pendingRequests := pendingRequests[id := Pending(call.verb, process.generation)];
      wire := After(wire, Sent(id, call, process.generation, CurrentPhase(old(State()))));
    }

    /** A request whose frame could not be written is taken back and reported. */
    method Refuse(id: nat, verb: Method)
      requires id == nextRequestId + 1
      modifies `nextRequestId, `pendingRequests, `wire
      ensures State() == Unwritten(old(State()))
    {
      nextRequestId := id;
      pendingRequests := pendingRequests[id := Pending(verb, process.generation)];
      RemovePendingRequest(id);
      InsertedAndRemoved(old(pendingRequests), id, Pending(verb, process.generation));
      wire := After(wire, Failed({id}));
    }

    // -------------------------------------------------------------------
    // Reconnecting

    /** scheduleReconnect; the delay is looked up with an index that is in range. */
    method ScheduleReconnect() returns (delayMs: nat)
      modifies `process, `reconnect
      ensures State() == Spec.ScheduleReconnect(old(State()))
    {
      delayMs := 0;
      if process.stopping || process.suppressed {
        return;
      }
      if process.running {
        SuppressAutomaticReconnect();
        SetReconnectState(Exhausted);
        return;
      }
      if reconnect.state.Waiting? && reconnect.timerActive {
        return;
      }
      reconnect := reconnect.(stabilityGeneration := 0);
      reconnect := reconnect.(cycleActive := true);
      if reconnect.attempt >= |reconnect.backoff| {
        reconnect := reconnect.(timerActive := false);
        reconnect := reconnect.(scheduledGeneration := 0);
        SetReconnectState(Exhausted);
        return;
      }
      reconnect := reconnect.(attempt := reconnect.attempt + 1);
      delayMs := reconnect.backoff[reconnect.attempt - 1];
      reconnect := reconnect.(scheduledGeneration := process.generation);
      SetReconnectState(Waiting);
      reconnect := reconnect.(timerActive := true);
    }

    method HandleRetryableProcessFailure(env: Environment)
      modifies this
      ensures State() == HandleRetryable(old(State()), env)
    {
      if process.stopping || process.suppressed {
        return;
      }
      if process.running {
        TearDown(env);
        return;
      }
      var _ := ScheduleReconnect();
      ClearNegotiationState();
      FailPending(env);
    }

    /** The slot behind QProcess::errorOccurred. */
    method ErrorOccurred(env: Environment, crashed: bool)
      modifies this
      ensures State() == OnError(old(State()), env, crashed)
    {
      if process.stopping || process.suppressed || reconnect.terminationPending {
        return;
      }
      if crashed {
        return;
      }
      if !process.running {
        HandleRetryableProcessFailure(env);
        return;
      }
      SuppressAutomaticReconnect();
      ClearNegotiationState();
      FailPending(env);
      SetReconnectState(Exhausted);
    }

    method SendInitializeRequest(env: Environment)
      modifies this
      ensures State() == SendInitialize(old(State()), env)
    {
      if !process.running || session.initializeId != 0 {
        return;
      }
      var id := SendRequest(env, Plain(Initialize), true);
      session := session.(initializeId := id);
      session := session.(initializeGeneration := process.generation);
      if id == 0 {
        HandleRetryableProcessFailure(env);
      }
    }

    /** launchProcess */
    method LaunchProcess(env: Environment, reconnectAttempt: bool)
      modifies this
      ensures State() == Spec.LaunchProcess(old(State()), env, reconnectAttempt)
    {
      if reconnectAttempt {
        reconnect := reconnect.(relaunches := Relaunched(reconnect.relaunches));
      }
      if process.stopping || process.suppressed || process.running {
        return;
      }
      if env.launch.NoRuntime? || env.launch.BadManifest? {
        process := process.(suppressed := true);
        if reconnectAttempt {
          SetReconnectState(Exhausted);
        }
        return;
      }
      BeginGeneration();
      if env.launch.NoDataRoot? {
        process := process.(suppressed := true);
        SetReconnectState(Exhausted);
        return;
      }
      StartProcess(env);
    }

    /** A new generation, with nothing negotiated and nothing pending. */
    method BeginGeneration()
      modifies this
      ensures State() == Generation(old(State()))
    {
      ClearNegotiationState();
      process := process.(terminationPending := false);
      process := process.(generation := process.generation + 1);
      heartbeat := heartbeat.(beats := Begun(heartbeat.beats));
      process := process.(discardOutput := false);
      pendingRequests := map[];
    }

    /** The part of launchProcess from QProcess::start on. */
    method StartProcess(env: Environment)
      modifies this
      ensures State() == Launched(old(State()), env)
    {
      process := process.(startedEmergency := process.emergency, running := !env.launch.StartFailed?);
      if env.launch.StartFailed? {
        ErrorOccurred(env, false);
      }
      if !env.launch.Started? {
        if !process.stopping && !process.suppressed && !reconnect.state.Waiting? && !reconnect.state.Exhausted? {
          HandleRetryableProcessFailure(env);
        }
        return;
      }
      session := session.(startupGeneration := process.generation);
      if !env.launch.prelude {
        HandleRetryableProcessFailure(env);
        return;
      }
      SendInitializeRequest(env);
    }

    method BeginReconnectAttempt(env: Environment)
      modifies this
      ensures State() == BeginReconnect(old(State()), env)
    {
      if || process.stopping || process.suppressed || !reconnect.state.Waiting?
         || reconnect.scheduledGeneration != process.generation {
        return;
      }
      reconnect := reconnect.(scheduledGeneration := 0);
      if process.running {
        SuppressAutomaticReconnect();
        SetReconnectState(Exhausted);
        return;
      }
      SetReconnectState(Restarting);
      LaunchProcess(env, true);
    }

    /** One more attempt, and the debt of a relaunch. */
    method TakeAttempt()
      modifies `reconnect
      ensures State() == Owing(old(State()))
    {
      reconnect := reconnect.(timerActive := false);
      reconnect := reconnect.(stabilityGeneration := 0);
      reconnect := reconnect.(scheduledGeneration := 0);
      reconnect := reconnect.(cycleActive := true);
      reconnect := reconnect.(attempt := reconnect.attempt + 1);
      reconnect := reconnect.(terminationPending := true);
      reconnect := reconnect.(terminationGeneration := process.generation);
    }

    /** abandonAmbiguousTimelineSubscriptionConnection */
    method AbandonAmbiguousConnection(env: Environment)
      modifies this
      ensures State() == AbandonAmbiguous(old(State()), env)
    {
      var canReconnect := !process.stopping && !process.suppressed && reconnect.attempt < |reconnect.backoff|;
      heartbeat := heartbeat.(healthy := false);
      process := process.(discardOutput := true);
      assert State() == Discard(Unhealthy(old(State())));
      if canReconnect {
        TakeAttempt();
      } else {
        SuppressAutomaticReconnect();
      }
      ClearNegotiationState();
      FailPending(env);
      SetReconnectState(if canReconnect then Restarting else Exhausted);
      if !process.running && canReconnect {
        SettleAndLaunch(env);
      }
    }

    /** A terminated generation is followed by the next one. */
    method SettleAndLaunch(env: Environment)
      modifies this
      ensures State() == Spec.LaunchProcess(Settled(old(State())), env, true)
    {
      reconnect := reconnect.(terminationPending := false);
      reconnect := reconnect.(terminationGeneration := 0);
      assert State() == Settled(old(State()));
      LaunchProcess(env, true);
    }

    // -------------------------------------------------------------------
    // Heartbeats

    method SendHeartbeat(env: Environment, recoveryProbe: bool)
      requires Fair(env)
      modifies this
      ensures State() == Spec.SendHeartbeat(old(State()), env, recoveryProbe)
    {
      if || !heartbeat.negotiated || !session.handshakeComplete || !process.running || heartbeat.id != 0
         || (!heartbeat.healthy && !recoveryProbe) {
        return;
      }
      heartbeat := heartbeat.(counter := heartbeat.counter + 1);
      var nonce := Nonce(process.generation, heartbeat.counter);
      assert State() == Counted(old(State()));
      var id := SendRequest(env, Plain(RuntimeHeartbeat), true);
      ghost var sent := State();
      if id == 0 {
        if process.suppressed {
          return;
        }
        heartbeat := heartbeat.(healthy := false);
        FailOrdinaryPending(env);
        assert State() == FailOrdinary(Unhealthy(sent), env);
        TearDown(env);
        return;
      }
      heartbeat := heartbeat.(id := id);
      heartbeat := heartbeat.(deadlineId := id);
      heartbeat := heartbeat.(nonce := nonce);
      heartbeat := heartbeat.(generation := process.generation);
      heartbeat := heartbeat.(deadlineGeneration := process.generation);
      if recoveryProbe {
        heartbeat := heartbeat.(beats := Probed(heartbeat.beats));
      }
      assert State() == Beating(sent, id, recoveryProbe);
    }

    /** scheduleHeartbeatRecoveryProbe; the delay is looked up with an index that is in range. */
    method ScheduleHeartbeatRecoveryProbe() returns (delayMs: nat)
      modifies `heartbeat
      ensures State() == ScheduleProbe(old(State()))
    {
      var recoveryBackoffMs := [0, 500, 2000];
      delayMs := 0;
      if || !heartbeat.negotiated || heartbeat.healthy || !session.handshakeComplete || !process.running
         || process.stopping || process.suppressed {
        return;
      }
      if heartbeat.recoveryAttempt >= |recoveryBackoffMs| {
        return;
      }
      heartbeat := heartbeat.(recoveryAttempt := heartbeat.recoveryAttempt + 1);
      delayMs := recoveryBackoffMs[heartbeat.recoveryAttempt - 1];
      var probe := Probe(heartbeat.recoveryAttempt, process.generation);
      heartbeat := heartbeat.(probes := heartbeat.probes + multiset{probe});
    }

    method RetireHeartbeat()
      modifies `heartbeat, `pendingRequests, `retiredResponseIds, `retiredResponseOrder
      ensures State() == Unbeaten(old(State()))
    {
      RetireResponseId(heartbeat.id);
      RemovePendingRequest(heartbeat.id);
      heartbeat := heartbeat.(id := 0, deadlineId := 0, nonce := NoNonce);
      heartbeat := heartbeat.(generation := 0, deadlineGeneration := 0);
    }

    method HandleHeartbeatTimeout(env: Environment)
      requires Fair(env)
      modifies this
      ensures State() == HeartbeatTimeout(old(State()), env)
    {
      if || !heartbeat.negotiated || !session.handshakeComplete || heartbeat.id == 0
         || heartbeat.deadlineId != heartbeat.id || heartbeat.deadlineGeneration != heartbeat.generation
         || heartbeat.deadlineGeneration != process.generation {
        return;
      }
      var subscriptionOwnershipUnknown := exists id | id in pendingRequests ::
        pendingRequests[id].generation == process.generation && IsSubscription(pendingRequests[id].verb);
      assert subscriptionOwnershipUnknown == SubscriptionPending(State());
      RetireHeartbeat();
      if subscriptionOwnershipUnknown {
        AbandonAmbiguousConnection(env);
        return;
      }
      heartbeat := heartbeat.(healthy := false);
      FailOrdinaryPending(env);
      assert State() == FailOrdinary(Unhealthy(Unbeaten(old(State()))), env);
      var _ := ScheduleHeartbeatRecoveryProbe();
    }

    // -------------------------------------------------------------------
    // Incoming messages

    method RejectAnyFrame(env: Environment)
      modifies this
      ensures State() == RejectFrame(old(State()), env)
    {
      if !session.handshakeComplete && session.initializeId != 0 {
        RejectInitializeResponse();
      } else {
        RejectProtocolMessage(env);
      }
    }

    method QueryIfNegotiated(env: Environment, capability: Capability, verb: Method)
      modifies this
      ensures State() == Query(old(State()), env, capability, verb)
    {
      if capability in session.capabilities {
        var _ := SendRequest(env, Plain(verb), true);
      }
    }

    method SendStartupQueries(env: Environment)
      modifies this
      ensures State() == StartupQueries(old(State()), env)
    {
      QueryIfNegotiated(env, Capability.RuntimeHealth, Method.RuntimeHealth);
      QueryIfNegotiated(env, Capability.RuntimeDegradations, Method.RuntimeDegradations);
      QueryIfNegotiated(env, ModelCatalogReadOnly, ModelCatalog);
      QueryIfNegotiated(env, ModelCatalogCacheReadOnly, ModelCatalogCache);
      QueryIfNegotiated(env, ModelCatalogRefreshStatusReadOnly, ModelCatalogRefreshStatus);
      QueryIfNegotiated(env, ModelProfileReadOnly, ModelProfileList);
      if session.recoveryMode {
        QueryIfNegotiated(env, Capability.RuntimeRecoveryStatus, Method.RuntimeRecoveryStatus);
      } else {
        QueryIfNegotiated(env, Capability.RuntimeProjectionRecoveryStatus, Method.RuntimeProjectionRecoveryStatus);
      }
    }

    /** What an accepted result of initialize settles. */
    method Negotiate(hello: InitializeResult)
      modifies this
      ensures State() == Negotiated(old(State()), hello)
    {
      var id := session.initializeId;
      RetireResponseId(id);
      RemovePendingRequest(id);
      wire := After(wire, Delivered(id, process.generation));
      assert Table() == Deliver(Retire(old(Table()), id), id, process.generation);
      session := session.(initializeId := 0, initializeGeneration := 0);
      session := session.(capabilities := Stable(hello));
      session := session.(frameLimit := hello.frameLimit);
      session := session.(startupGeneration := 0);
      session := session.(handshakeComplete := true);
      session := session.(recoveryMode := hello.status.ReadOnlyRecovery?);
      session := session.(ready := hello.status.Ready? || session.recoveryMode);
      heartbeat := heartbeat.(negotiated := RuntimeHeartbeatOutOfBand in session.capabilities);
      heartbeat := heartbeat.(healthy := heartbeat.negotiated);
    }

    method AcceptInitializeResponse(env: Environment, hello: InitializeResult)
      requires Fair(env)
      modifies this
      ensures State() == AcceptInitialize(old(State()), env, hello)
    {
      Negotiate(hello);
      if !env.notifies {
        RejectProtocolMessage(env);
        return;
      }
      if heartbeat.negotiated {
        SendHeartbeat(env, false);
      }
      if reconnect.cycleActive {
        session := session.(recoveryPending := true);
        return;
      }
      SendStartupQueries(env);
    }

    method AnswerRequest(id: nat)
      modifies `pendingRequests, `wire
      ensures State() == Answer(old(State()), id)
    {
      RemovePendingRequest(id);
      wire := After(wire, Delivered(id, process.generation));
    }

    ghost method ReportFailure(id: nat)
      modifies `wire
      ensures State() == Reported(old(State()), id)
    {
      wire := After(wire, Delivered(id, process.generation));
    }

    method ProcessErrorResponse(env: Environment, id: nat, verb: Method, body: Body)
      requires Fair(env) && body.ErrorBody?
      modifies this
      ensures State() == ProcessError(old(State()), env, id, verb, body)
    {
      if !body.wellFormed {
        RejectProtocolMessage(env);
      } else if verb.RuntimeHeartbeat? {
        ReportFailure(id);
        HandleHeartbeatTimeout(env);
      } else if (IsSubscription(verb) || (verb.TimelineSync? && body.retentionGap)) && !body.dataValid {
        RejectProtocolMessage(env);
      } else {
        AnswerRequest(id);
      }
    }

    method ProcessHeartbeatResult(env: Environment, id: nat, body: Body)
      requires body.ResultBody?
      modifies this
      ensures State() == ProcessHeartbeat(old(State()), env, id, body)
    {
      if || id != heartbeat.id || heartbeat.generation != process.generation || !body.valid
         || body.echo != heartbeat.nonce {
        RejectProtocolMessage(env);
        return;
      }
      AnswerRequest(id);
      heartbeat := heartbeat.(id := 0, deadlineId := 0, nonce := NoNonce);
      heartbeat := heartbeat.(generation := 0, deadlineGeneration := 0);
      heartbeat := heartbeat.(healthy := true, recoveryAttempt := 0);
      heartbeat := heartbeat.(beats := Answered(heartbeat.beats));
    }

    method ProcessResultResponse(env: Environment, id: nat, verb: Method, body: Body)
      requires body.ResultBody?
      modifies this
      ensures State() == ProcessResult(old(State()), env, id, verb, body)
    {
      if !body.typed {
        RejectProtocolMessage(env);
        return;
      }
      if verb.RuntimeHeartbeat? {
        ProcessHeartbeatResult(env, id, body);
        return;
      }
      if ResultIsChecked(verb) && !body.valid {
        RejectProtocolMessage(env);
        return;
      }
      AnswerRequest(id);
    }

    method DispatchEarlyResponse(env: Environment, id: nat, verb: Method, body: Body)
      requires Fair(env)
      modifies this
      ensures State() == DispatchEarly(old(State()), env, id, verb, body)
    {
      if id != session.initializeId || !verb.Initialize? || session.initializeGeneration != process.generation {
        RejectInitializeResponse();
      } else if body.Neither? {
        RejectAnyFrame(env);
      } else if body.ResultBody? && body.typed && ValidInitialize(body.hello) {
        AcceptInitializeResponse(env, body.hello);
      } else {
        RejectInitializeResponse();
      }
    }

    method DispatchLateResponse(env: Environment, id: nat, verb: Method, body: Body)
      requires Fair(env)
      modifies this
      ensures State() == DispatchLate(old(State()), env, id, verb, body)
    {
      if verb.Initialize? || body.Neither? {
        RejectProtocolMessage(env);
      } else if body.ErrorBody? {
        ProcessErrorResponse(env, id, verb, body);
      } else {
        ProcessResultResponse(env, id, verb, body);
      }
    }

    /** processMessage, and the checks of processTransportBytes on one line. */
    method ProcessLine(env: Environment, frame: Frame)
      requires Fair(env)
      modifies this
      ensures State() == ProcessFrame(old(State()), env, frame)
    {
      match frame {
        case TooLong => RejectAnyFrame(env);
        case Undecodable => RejectAnyFrame(env);
        case Notification(notice) =>
          if !session.handshakeComplete || Offends(session.capabilities, notice) {
            RejectAnyFrame(env);
          }
        case Response(id, decoding, body) =>
          if decoding.Rejected? {
            RejectAnyFrame(env);
            return;
          }
          var pendingCurrent := && id != 0 && id in pendingRequests
                                && pendingRequests[id].generation == process.generation
                                && id !in retiredResponseIds;
          if decoding.Unmatched? || !pendingCurrent {
            return;
          }
          if session.handshakeComplete {
            DispatchLateResponse(env, id, pendingRequests[id].verb, body);
          } else {
            DispatchEarlyResponse(env, id, pendingRequests[id].verb, body);
          }
      }
    }

    /** The loop of processTransportBytes over the lines of one read. */
    method ProcessTransportLines(env: Environment, frames: seq<Frame>)
      requires Fair(env)
      modifies this
      ensures State() == OnRead(old(State()), env, frames)
    {
      if process.discardOutput {
        return;
      }
      var i := 0;
      while i < |frames|
        invariant 0 <= i <= |frames|
        invariant ProcessFrames(State(), env, frames[i..]) == ProcessFrames(old(State()), env, frames)
      {
        var maximumFrameBytes := if session.handshakeComplete then session.frameLimit else MAXIMUM_FRAME_BYTES;
        if maximumFrameBytes <= 0 {
          RejectProtocolMessage(env);
          return;
        }
        ProcessLine(env, frames[i]);
        assert frames[i..][1..] == frames[i + 1..];
        if frames[i].TooLong? || frames[i].Undecodable? {
          return;
        }
        i := i + 1;
      }
    }

    // -------------------------------------------------------------------
    // Public calls

    method Start(env: Environment)
      modifies this
      ensures State() == OnStart(old(State()), env)
    {
      if process.running || reconnect.state.Waiting? || reconnect.state.Restarting? {
        return;
      }
      reconnect := reconnect.(timerActive := false);
      reconnect := reconnect.(stabilityGeneration := 0);
      reconnect := reconnect.(attempt := 0, relaunches := Reset(reconnect.relaunches));
      reconnect := reconnect.(cycleActive := false);
      process := process.(suppressed := false);
      process := process.(stopping := false);
      SetReconnectState(Idle);
      LaunchProcess(env, false);
    }

    method PrepareStop()
      modifies `process, `reconnect
      ensures State() == Stopping(old(State()))
    {
      reconnect := reconnect.(timerActive := false, stabilityGeneration := 0);
      reconnect := reconnect.(cycleActive := false, scheduledGeneration := 0, state := Idle);
      process := process.(suppressed := true, terminationPending := false, stopping := true);
      if !process.running {
        process := process.(stopping := false);
      }
    }

    method Stop(env: Environment)
      modifies this
      ensures State() == OnStop(old(State()), env)
    {
      PrepareStop();
      if process.running && session.handshakeComplete {
        var _ := SendRequest(env, Plain(Shutdown), true);
      }
    }

    method SetEmergencyDisabled(env: Environment, disabled: bool)
      modifies this
      ensures State() == OnSetEmergency(old(State()), env, disabled)
    {
      if process.emergency == disabled {
        return;
      }
      process := process.(emergency := disabled);
      reconnect := reconnect.(timerActive := false);
      if reconnect.state.Waiting? {
        SetReconnectState(Idle);
      }
      assert State() == Policy(old(State()), disabled);
      if !process.running || process.startedEmergency == disabled {
        return;
      }
      PrepareRestart(env);
      if session.handshakeComplete {
        var _ := SendRequest(env, Plain(Shutdown), true);
      }
    }

    method PrepareRestart(env: Environment)
      modifies this
      ensures State() == RestartForPolicy(old(State()), env)
    {
      process := process.(policyRestart := true);
      process := process.(stopping := true);
      process := process.(suppressed := true);
      SetReconnectState(Idle);
      wire := After(wire, PolicyChanged(session.initializeId));
      FailPending(env);
    }

    method AbandonTimelineSubscriptionConnection(env: Environment)
      modifies this
      ensures State() == OnAbandon(old(State()), env)
    {
      if process.stopping || reconnect.terminationPending || process.terminationPending || process.suppressed {
        return;
      }
      AbandonAmbiguousConnection(env);
    }

    method CompleteReconnectRecovery(env: Environment, generation: nat, success: bool) returns (completed: bool)
      modifies this
      ensures completed == CanComplete(old(State()), generation)
      ensures State() == OnCompleteRecovery(old(State()), env, generation, success)
    {
      if || !session.recoveryPending || generation == 0 || generation != process.generation
         || !session.handshakeComplete || !process.running {
        return false;
      }
      session := session.(recoveryPending := false);
      if !success {
        process := process.(suppressed := true);
        SetReconnectState(Exhausted);
        return true;
      }
      reconnect := reconnect.(cycleActive := false);
      SetReconnectState(Idle);
      if reconnect.attempt > 0 {
        reconnect := reconnect.(stabilityGeneration := process.generation);
      }
      assert State() == Recovered(old(State()));
      if session.ready && (!heartbeat.negotiated || heartbeat.healthy) {
        SendStartupQueries(env);
      }
      return true;
    }

    // -------------------------------------------------------------------
    // Timers and the process

    method StartupTimeout(env: Environment)
      modifies this
      ensures State() == OnStartupTimer(old(State()), env)
    {
      if && !session.ready && session.startupGeneration == process.generation && process.running
         && !process.stopping && !process.suppressed {
        TearDown(env);
        process := process.(terminationPending := true);
      }
    }

    method ReconnectTimeout(env: Environment)
      modifies this
      ensures State() == BeginReconnect(old(State()).(reconnect := old(reconnect).(timerActive := false)), env)
    {
      reconnect := reconnect.(timerActive := false);
      BeginReconnectAttempt(env);
    }

    method StabilityTimeout()
      modifies `reconnect
      ensures State() == OnStabilityTimer(old(State()))
    {
      if && reconnect.stabilityGeneration != 0 && reconnect.stabilityGeneration == process.generation
         && reconnect.state.Idle? && session.ready && !session.recoveryPending
         && (!heartbeat.negotiated || heartbeat.healthy) && reconnect.attempt > 0 {
        reconnect := reconnect.(stabilityGeneration := 0);
        reconnect := reconnect.(attempt := 0, relaunches := Reset(reconnect.relaunches));
        SetReconnectState(Idle);
      }
    }

    method ProbeTimeout(env: Environment, probe: Probe)
      requires Fair(env)
      modifies this
      ensures State() == OnProbeTimer(old(State()), env, probe)
    {
      heartbeat := heartbeat.(probes := heartbeat.probes - multiset{probe});
      if || probe.generation != process.generation || probe.attempt != heartbeat.recoveryAttempt
         || heartbeat.healthy || !session.handshakeComplete || !process.running
         || process.stopping || process.suppressed || heartbeat.id != 0 {
        return;
      }
      SendHeartbeat(env, true);
    }

    method FailedToStart(env: Environment)
      modifies this
      ensures State() == OnError(old(State()).(process := old(process).(running := false)), env, false)
    {
      process := process.(running := false);
      ErrorOccurred(env, false);
    }

    /** The slot behind QProcess::finished. */
    method Finished(env: Environment)
      modifies this
      ensures State() == OnFinished(old(State()), env)
    {
      var expected := process.stopping;
      process := process.(running := false, stopping := false);
      session := session.(startupGeneration := 0);
      assert State() == Down(old(State()));
      if process.policyRestart {
        FinishForPolicy();
      } else if process.terminationPending {
        process := process.(terminationPending := false);
        ClearNegotiationState();
      } else if reconnect.terminationPending && reconnect.terminationGeneration == process.generation {
        if !expected && !process.suppressed && reconnect.state.Restarting? {
          SettleAndLaunch(env);
        } else {
          reconnect := reconnect.(terminationPending := false);
          reconnect := reconnect.(terminationGeneration := 0);
        }
      } else {
        FinishUnplanned(env, expected);
      }
    }

    method FinishForPolicy()
      modifies this
      ensures State() == DownForPolicy(old(State()))
    {
      process := process.(policyRestart := false);
      ClearNegotiationState();
      process := process.(suppressed := false);
      SetReconnectState(Idle);
    }

    method FinishUnplanned(env: Environment, expected: bool)
      modifies this
      ensures State() == DownUnplanned(old(State()), env, expected)
    {
      ClearNegotiationState();
      FailPending(env);
      if expected || process.suppressed {
        if !reconnect.state.Exhausted? {
          SetReconnectState(Idle);
        }
      } else if !reconnect.state.Waiting? {
        var _ := ScheduleReconnect();
      }
    }

    // -------------------------------------------------------------------
    // All of them

    method HandleTimer(env: Environment, event: Event)
      requires Fair(env)
      requires event.StartupTimer? || event.HeartbeatTimer? || event.DeadlineTimer? || event.ReconnectTimer?
               || event.StabilityTimer? || event.ProbeTimer?
      modifies this
      ensures State() == Step(old(State()), env, event)
    {
      match event {
        case StartupTimer => StartupTimeout(env);
        case HeartbeatTimer => SendHeartbeat(env, false);
        case DeadlineTimer => HandleHeartbeatTimeout(env);
        case ReconnectTimer =>
          if reconnect.timerActive {
            ReconnectTimeout(env);
          }
        case StabilityTimer => StabilityTimeout();
        case ProbeTimer(probe) =>
          if probe in heartbeat.probes {
            ProbeTimeout(env, probe);
          }
      }
    }

    method HandleProcess(env: Environment, event: Event)
      requires Fair(env)
      requires event.Read? || event.ErrorOccurred? || event.FailedToStart? || event.Finished?
      modifies this
      ensures State() == Step(old(State()), env, event)
    {
      match event {
        case Read(frames) => ProcessTransportLines(env, frames);
        case ErrorOccurred(crashed) => ErrorOccurred(env, crashed);
        case FailedToStart =>
          if process.running {
            FailedToStart(env);
          }
        case Finished =>
          if process.running {
            Finished(env);
          }
      }
    }

    method HandleCall(env: Environment, event: Event)
      requires event.Start? || event.Stop? || event.SetEmergencyDisabled? || event.Ask? || event.Abandon?
               || event.CompleteRecovery?
      modifies this
      ensures State() == Step(old(State()), env, event)
    {
      match event {
        case Start => Start(env);
        case Stop => Stop(env);
        case SetEmergencyDisabled(disabled) => SetEmergencyDisabled(env, disabled);
        case Ask(call, identified) =>
          if !call.verb.Initialize? && !call.verb.RuntimeHeartbeat? {
            var _ := SendRequest(env, call, identified || !IsSubscription(call.verb));
          }
        case Abandon => AbandonTimelineSubscriptionConnection(env);
        case CompleteRecovery(generation, success) =>
          var _ := CompleteReconnectRecovery(env, generation, success);
      }
    }

    /** Whatever happens to the object is a step of the state machine. */
    method Handle(env: Environment, event: Event)
      requires Fair(env)
      modifies this
      ensures State() == Step(old(State()), env, event)
    {
      match event {
        case Start => HandleCall(env, event);
        case Stop => HandleCall(env, event);
        case SetEmergencyDisabled(_) => HandleCall(env, event);
        case Ask(_, _) => HandleCall(env, event);
        case Abandon => HandleCall(env, event);
        case CompleteRecovery(_, _) => HandleCall(env, event);
        case Read(_) => HandleProcess(env, event);
        case ErrorOccurred(_) => HandleProcess(env, event);
        case FailedToStart => HandleProcess(env, event);
        case Finished => HandleProcess(env, event);
        case _ => HandleTimer(env, event);
      }
    }
  }
}
