// The runtime client on the stdio transport as a state machine
// (src/agent_runtime_client.cpp, AgentRuntimeClient from its constructor on). Every slot, timer,
// deferred callback and public call is one step: a function from a state, and from what the
// environment answers during the step, to the next state. AgentRuntimeClient.dfy holds the class
// whose methods are proved to compute these functions.

module ClientState {
  import opened Capabilities

  const MAXIMUM_RETIRED_RESPONSE_IDS := 1024

  const MAXIMUM_RECONNECT_ATTEMPTS := 3

  const MAXIMUM_RECONNECT_DELAY_MS := 30000

  /** The number of delays in the probes' own backoff list. */
  const MAXIMUM_RECOVERY_PROBES := 3

  // ---------------------------------------------------------------------
  // Histories: what has happened, newest last

  /** The conditions under which a request frame was written. */
  datatype Phase = Phase(
    handshakeComplete: bool,
    ready: bool,
    recoveryMode: bool,
    recoveryPending: bool,
    livenessUnknown: bool,
    emergency: bool,
    capabilities: set<Capability>)

  datatype Mark =
    | Sent(id: nat, call: Call, generation: nat, phase: Phase)
    | Failed(ids: set<nat>)
    | Delivered(id: nat, generation: nat)
    | PolicyChanged(initializeId: nat)

  /** Frames written and requests reported. */
  datatype Wire = Silence | After(past: Wire, mark: Mark)

  /** Calls of launchProcess(true), and resets of the attempt counter. */
  datatype Relaunches = NoRelaunch | Relaunched(past: Relaunches) | Reset(past: Relaunches)

  /** Probes written, heartbeats answered and generations begun. */
  datatype Beats = NoBeat | Probed(past: Beats) | Answered(past: Beats) | Begun(past: Beats)

  function LaunchesSinceReset(relaunches: Relaunches): nat {
    match relaunches
    case NoRelaunch => 0
    case Relaunched(past) => 1 + LaunchesSinceReset(past)
    case Reset(_) => 0
  }

  function ProbesSinceAnswer(beats: Beats): nat {
    match beats
    case NoBeat => 0
    case Probed(past) => 1 + ProbesSinceAnswer(past)
    case Answered(_) => 0
    case Begun(_) => 0
  }

  predicate Resolves(mark: Mark, id: nat) {
    match mark
    case Failed(ids) => id in ids
    case Delivered(delivered, _) => id == delivered
    case Sent(_, _, _, _) => false
    case PolicyChanged(_) => false
  }

  /** How often a request was reported, as a result or as a failure. */
  function Resolutions(wire: Wire, id: nat): nat {
    match wire
    case Silence => 0
    case After(past, mark) => Resolutions(past, id) + if Resolves(mark, id) then 1 else 0
  }

  // ---------------------------------------------------------------------
  // The state, by concern

  datatype Pending = Pending(verb: Method, generation: nat)

  datatype Requests = Requests(
    next: nat,
    pending: map<nat, Pending>,
    retired: set<nat>,
    order: seq<nat>,
    wire: Wire)

  /** What the handshake of a generation has settled; an id of zero is the empty string. */
  datatype Session = Session(
    initializeId: nat,
    initializeGeneration: nat,
    startupGeneration: nat,
    handshakeComplete: bool,
    ready: bool,
    recoveryMode: bool,
    recoveryPending: bool,
    capabilities: set<Capability>,
    frameLimit: int)

  const CLOSED_SESSION := Session(0, 0, 0, false, false, false, false, {}, 0)

  datatype Nonce = NoNonce | Nonce(generation: nat, counter: nat)

  /** A deferred recovery probe. */
  datatype Probe = Probe(attempt: nat, generation: nat)

  datatype Heartbeat = Heartbeat(
    negotiated: bool,
    healthy: bool,
    id: nat,
    deadlineId: nat,
    nonce: Nonce,
    generation: nat,
    deadlineGeneration: nat,
    recoveryAttempt: nat,
    counter: nat,
    probes: multiset<Probe>,
    beats: Beats)

  datatype ReconnectState = Idle | Waiting | Restarting | Exhausted

  datatype Reconnect = Reconnect(
    backoff: seq<nat>,
    attempt: nat,
    state: ReconnectState,
    scheduledGeneration: nat,
    terminationPending: bool,
    terminationGeneration: nat,
    stabilityGeneration: nat,
    cycleActive: bool,
    timerActive: bool,
    relaunches: Relaunches)

  datatype Process = Process(
    running: bool,
    generation: nat,
    stopping: bool,
    suppressed: bool,
    terminationPending: bool,
    discardOutput: bool,
    emergency: bool,
    startedEmergency: bool,
    policyRestart: bool)

  datatype ClientState = ClientState(
    process: Process,
    session: Session,
    heartbeat: Heartbeat,
    reconnect: Reconnect,
    requests: Requests)

  // ---------------------------------------------------------------------
  // The environment of one step

  datatype WriteOutcome = Written | TooLarge | Broken

  datatype LaunchOutcome =
    | NoRuntime
    | BadManifest
    | NoDataRoot
    | StartFailed
    | StartTimedOut
    | Started(prelude: bool)

  /**
   * What the outside answers: for each request id the outcome of writing its frame, whether the
   * initialized notification can be written, how a launch ends, and in which order a hash table
   * with the given keys is visited.
   */
  datatype Environment = Environment(
    write: nat -> WriteOutcome,
    notifies: bool,
    launch: LaunchOutcome,
    order: set<nat> -> seq<nat>,
    platform: Platform)

  ghost predicate Enumerates(ids: seq<nat>, keys: set<nat>) {
    && (forall id :: id in ids <==> id in keys)
    && forall i, j | 0 <= i < j < |ids| :: ids[i] != ids[j]
  }

  ghost predicate Fair(env: Environment) {
    forall keys :: Enumerates(env.order(keys), keys)
  }

  // ---------------------------------------------------------------------
  // Retired and pending requests

  /** The loop that drops the oldest retired ids. */
  function Trim(retired: set<nat>, order: seq<nat>): (set<nat>, seq<nat>)
    decreases |order|
  {
    if |order| > MAXIMUM_RETIRED_RESPONSE_IDS then Trim(retired - {order[0]}, order[1..]) else (retired, order)
  }

  /** retireResponseId */
  function Retire(q: Requests, id: nat): Requests {
    if id == 0 || id in q.retired then q
    else
      var (retired, order) := Trim(q.retired + {id}, q.order + [id]);
      q.(retired := retired, order := order)
  }

  function RetireAll(q: Requests, ids: seq<nat>): Requests
    decreases |ids|
  {
    if ids == [] then q else RetireAll(Retire(q, ids[0]), ids[1..])
  }

  /** removePendingRequest */
  function Remove(q: Requests, id: nat): Requests {
    q.(pending := q.pending - {id})
  }

  function Report(q: Requests, mark: Mark): Requests {
    q.(wire := After(q.wire, mark))
  }

  /** Retiring and reporting a set of pending requests, in the order in which they are visited. */
  function FailAll(q: Requests, ids: set<nat>, env: Environment): Requests {
    Report(RetireAll(q.(pending := q.pending - ids), env.order(ids)), Failed(ids))
  }

  /** failPending */
  function FailPending(s: ClientState, env: Environment): ClientState {
    s.(requests := FailAll(s.requests, s.requests.pending.Keys, env))
  }

  function Ordinary(pending: map<nat, Pending>): set<nat> {
    set id | id in pending && !IsLivenessControl(pending[id].verb)
  }

  /** failOrdinaryPending */
  function FailOrdinary(s: ClientState, env: Environment): ClientState {
    s.(requests := FailAll(s.requests, Ordinary(s.requests.pending), env))
  }

  // ---------------------------------------------------------------------
  // Tearing a connection down

  function SetState(s: ClientState, state: ReconnectState): ClientState {
    s.(reconnect := s.reconnect.(state := state))
  }

  /** suppressAutomaticReconnect */
  function Suppress(s: ClientState): ClientState {
    s.(process := s.process.(suppressed := true),
       reconnect := s.reconnect.(
         timerActive := false, stabilityGeneration := 0, scheduledGeneration := 0,
         terminationPending := false, terminationGeneration := 0, cycleActive := false))
  }

  function Silenced(h: Heartbeat): Heartbeat {
    h.(negotiated := false, healthy := false, id := 0, deadlineId := 0, nonce := NoNonce,
       generation := 0, deadlineGeneration := 0, recoveryAttempt := 0)
  }

  /** clearNegotiationState */
  function Clear(s: ClientState): ClientState {
    s.(requests := if s.heartbeat.id != 0 then Remove(Retire(s.requests, s.heartbeat.id), s.heartbeat.id) else s.requests,
       session := CLOSED_SESSION,
       heartbeat := Silenced(s.heartbeat),
       reconnect := s.reconnect.(stabilityGeneration := 0))
  }

  function Discard(s: ClientState): ClientState {
    s.(process := s.process.(discardOutput := true))
  }

  /** The tear-down that several handlers spell out: no reconnect, no session, nothing pending. */
  function Surrender(s: ClientState, env: Environment): ClientState {
    SetState(FailPending(Clear(Suppress(s)), env), Exhausted)
  }

  /** The same where the output of the process is dropped as well. */
  function GiveUp(s: ClientState, env: Environment): ClientState {
    Surrender(Discard(s), env)
  }

  /** rejectProtocolMessage */
  function RejectProtocol(s: ClientState, env: Environment): ClientState {
    var reconnecting := s.reconnect.cycleActive;
    var cleared := Clear(Discard(Suppress(s)));
    FailPending(if reconnecting then SetState(cleared, Exhausted) else cleared, env)
  }

  /** rejectInitializeResponse */
  function RejectInitialize(s: ClientState): ClientState {
    var id := s.session.initializeId;
    var s1 := if id != 0 then s.(requests := Remove(Retire(s.requests, id), id)) else s;
    var cleared := Clear(Discard(Suppress(s1)));
    var s2 := if s.reconnect.cycleActive then SetState(cleared, Exhausted) else cleared;
    s2.(requests := Report(s2.requests, Failed(if id != 0 then {id} else {})))
  }

  // ---------------------------------------------------------------------
  // Requests

  function CurrentPhase(s: ClientState): Phase {
    Phase(s.session.handshakeComplete, s.session.ready, s.session.recoveryMode, s.session.recoveryPending,
          s.heartbeat.negotiated && !s.heartbeat.healthy, s.process.emergency, s.session.capabilities)
  }

  /** The conditions that sendRequest checks before it takes a new id. */
  predicate Admitted(s: ClientState, platform: Platform, call: Call) {
    && s.process.running
    && (call.verb.Initialize? || s.session.handshakeComplete)
    && (s.process.emergency ==> EmergencyAllowed(call.verb))
    && (s.heartbeat.negotiated && !s.heartbeat.healthy ==> IsLivenessControl(call.verb))
    && (s.session.recoveryPending ==> IsReconnectRecovery(call.verb))
    && (call.verb.Initialize? || Required(call, platform) <= s.session.capabilities)
  }

  /** The frame limit in force before and after the handshake. */
  function FrameLimit(s: ClientState): int {
    if s.session.handshakeComplete then s.session.frameLimit else MAXIMUM_FRAME_BYTES
  }

  function Write(s: ClientState, env: Environment, id: nat): WriteOutcome {
    if FrameLimit(s) <= 0 then TooLarge else env.write(id)
  }

  function Taken(s: ClientState): ClientState {
    s.(requests := s.requests.(next := s.requests.next + 1))
  }

  /** A new id, pending in the current generation. */
  function Registered(s: ClientState, verb: Method): ClientState {
    var id := s.requests.next + 1;
    s.(requests := s.requests.(next := id, pending := s.requests.pending[id := Pending(verb, s.process.generation)]))
  }

  /** The same with its frame written. */
  function Issued(s: ClientState, call: Call): ClientState {
    var registered := Registered(s, call.verb);
    var id := s.requests.next + 1;
    registered.(requests := Report(registered.requests, Sent(id, call, s.process.generation, CurrentPhase(s))))
  }

  /** A new id whose frame could not be written. */
  function Unwritten(s: ClientState): ClientState {
    var id := s.requests.next + 1;
    s.(requests := Report(Remove(s.requests.(next := id), id), Failed({id})))
  }

  /** The rest of sendRequest once admission is decided: the next state, and the new id or zero. */
  function SendIf(s: ClientState, env: Environment, call: Call, admitted: bool, identified: bool): (ClientState, nat) {
    if !admitted then (s, 0)
    else if !identified then (Taken(s), 0)
    else
      match Write(s, env, s.requests.next + 1)
      case Written => (Issued(s, call), s.requests.next + 1)
      case TooLarge => (Unwritten(s), 0)
      case Broken => (GiveUp(Unwritten(s), env), 0)
  }

  /** sendRequest; `identified` is false for a subscription request whose identity is empty. */
  function SendRequest(s: ClientState, env: Environment, call: Call, identified: bool): (ClientState, nat) {
    SendIf(s, env, call, Admitted(s, env.platform, call), identified)
  }

  function Send(s: ClientState, env: Environment, verb: Method): (ClientState, nat) {
    SendRequest(s, env, Plain(verb), true)
  }

  // ---------------------------------------------------------------------
  // Reconnecting

  /** The next attempt is scheduled, or there is none left. */
  function Scheduled(s: ClientState): ClientState {
    var r := s.reconnect.(stabilityGeneration := 0, cycleActive := true);
    if r.attempt >= |r.backoff| then
      s.(reconnect := r.(timerActive := false, scheduledGeneration := 0, state := Exhausted))
    else
      s.(reconnect := r.(attempt := r.attempt + 1, scheduledGeneration := s.process.generation,
                         state := Waiting, timerActive := true))
  }

  /** scheduleReconnect */
  function ScheduleReconnect(s: ClientState): ClientState {
    if s.process.stopping || s.process.suppressed then s
    else if s.process.running then SetState(Suppress(s), Exhausted)
    else if s.reconnect.state.Waiting? && s.reconnect.timerActive then s
    else Scheduled(s)
  }

  /** handleRetryableProcessFailure */
  function HandleRetryable(s: ClientState, env: Environment): ClientState {
    if s.process.stopping || s.process.suppressed then s
    else if s.process.running then GiveUp(s, env)
    else FailPending(Clear(ScheduleReconnect(s)), env)
  }

  /** The slot behind QProcess::errorOccurred. */
  function OnError(s: ClientState, env: Environment, crashed: bool): ClientState {
    if s.process.stopping || s.process.suppressed || s.reconnect.terminationPending || crashed then s
    else if !s.process.running then HandleRetryable(s, env)
    else Surrender(s, env)
  }

  /** sendInitializeRequest */
  function SendInitialize(s: ClientState, env: Environment): ClientState {
    if !s.process.running || s.session.initializeId != 0 then s
    else
      var (s1, id) := Send(s, env, Initialize);
      var s2 := s1.(session := s1.session.(initializeId := id, initializeGeneration := s1.process.generation));
      if id == 0 then HandleRetryable(s2, env) else s2
  }

  /** The new generation that launchProcess prepares before it starts the process. */
  function Generation(s: ClientState): ClientState {
    var c := Clear(s);
    c.(process := c.process.(terminationPending := false, generation := c.process.generation + 1, discardOutput := false),
       heartbeat := c.heartbeat.(beats := Begun(c.heartbeat.beats)),
       requests := c.requests.(pending := map[]))
  }

  function Running(s: ClientState, running: bool): ClientState {
    s.(process := s.process.(startedEmergency := s.process.emergency, running := running))
  }

  /** What follows when waitForStarted reports no start. */
  function NotStarted(s: ClientState, env: Environment): ClientState {
    if !s.process.stopping && !s.process.suppressed && !s.reconnect.state.Waiting? && !s.reconnect.state.Exhausted?
    then HandleRetryable(s, env) else s
  }

  function Launched(s: ClientState, env: Environment): ClientState {
    match env.launch
    case StartFailed => NotStarted(OnError(Running(s, false), env, false), env)
    case Started(prelude) =>
      var up := Running(s, true);
      var s1 := up.(session := up.session.(startupGeneration := up.process.generation));
      if prelude then SendInitialize(s1, env) else HandleRetryable(s1, env)
    case _ => NotStarted(Running(s, true), env)
  }

  function Unlaunchable(s: ClientState, exhausted: bool): ClientState {
    var s1 := s.(process := s.process.(suppressed := true));
    if exhausted then SetState(s1, Exhausted) else s1
  }

  /** launchProcess; a call on behalf of a reconnect is recorded. */
  function LaunchProcess(s: ClientState, env: Environment, reconnect: bool): ClientState {
    var s1 := if reconnect then s.(reconnect := s.reconnect.(relaunches := Relaunched(s.reconnect.relaunches))) else s;
    if s.process.stopping || s.process.suppressed || s.process.running then s1
    else if env.launch.NoRuntime? || env.launch.BadManifest? then Unlaunchable(s1, reconnect)
    else if env.launch.NoDataRoot? then Unlaunchable(Generation(s1), true)
    else Launched(Generation(s1), env)
  }

  /** beginReconnectAttempt */
  function BeginReconnect(s: ClientState, env: Environment): ClientState {
    if || s.process.stopping || s.process.suppressed || !s.reconnect.state.Waiting?
       || s.reconnect.scheduledGeneration != s.process.generation
    then s
    else
      var s1 := s.(reconnect := s.reconnect.(scheduledGeneration := 0));
      if s.process.running then SetState(Suppress(s1), Exhausted)
      else LaunchProcess(SetState(s1, Restarting), env, true)
  }

  /** One more attempt is taken, and with it the debt of a relaunch once this generation has ended. */
  function Owing(s: ClientState): ClientState {
    s.(reconnect := s.reconnect.(
         timerActive := false, stabilityGeneration := 0, scheduledGeneration := 0, cycleActive := true,
         attempt := s.reconnect.attempt + 1,
         terminationPending := true, terminationGeneration := s.process.generation))
  }

  function Settled(s: ClientState): ClientState {
    s.(reconnect := s.reconnect.(terminationPending := false, terminationGeneration := 0))
  }

  predicate CanReconnect(s: ClientState) {
    !s.process.stopping && !s.process.suppressed && s.reconnect.attempt < |s.reconnect.backoff|
  }

  function Terminating(s: ClientState, env: Environment): ClientState {
    SetState(FailPending(Clear(Owing(s)), env), Restarting)
  }

  /** abandonAmbiguousTimelineSubscriptionConnection */
  function AbandonAmbiguous(s: ClientState, env: Environment): ClientState {
    var s1 := Discard(Unhealthy(s));
    if !CanReconnect(s) then Surrender(s1, env)
    else if s.process.running then Terminating(s1, env)
    else LaunchProcess(Settled(Terminating(s1, env)), env, true)
  }

  // ---------------------------------------------------------------------
  // Heartbeats

  /** The heartbeat that has just been written is outstanding. */
  function Beating(s: ClientState, id: nat, probe: bool): ClientState {
    var h := s.heartbeat;
    s.(heartbeat := h.(id := id, deadlineId := id, nonce := Nonce(s.process.generation, h.counter),
                       generation := s.process.generation, deadlineGeneration := s.process.generation,
                       beats := if probe then Probed(h.beats) else h.beats))
  }

  function Unhealthy(s: ClientState): ClientState {
    s.(heartbeat := s.heartbeat.(healthy := false))
  }

  /** The rest of sendHeartbeat once the request is built and its admission decided. */
  function BeatIf(s: ClientState, env: Environment, probe: bool, admitted: bool): ClientState {
    var (s1, id) := SendIf(s, env, Plain(RuntimeHeartbeat), admitted, true);
    if id != 0 then Beating(s1, id, probe)
    else if s1.process.suppressed then s1
    else GiveUp(FailOrdinary(Unhealthy(s1), env), env)
  }

  predicate MayBeat(s: ClientState, probe: bool) {
    && s.heartbeat.negotiated && s.session.handshakeComplete && s.process.running && s.heartbeat.id == 0
    && (s.heartbeat.healthy || probe)
  }

  function Counted(s: ClientState): ClientState {
    s.(heartbeat := s.heartbeat.(counter := s.heartbeat.counter + 1))
  }

  /** sendHeartbeat */
  function SendHeartbeat(s: ClientState, env: Environment, probe: bool): ClientState {
    if !MayBeat(s, probe) then s
    else BeatIf(Counted(s), env, probe, Admitted(Counted(s), env.platform, Plain(RuntimeHeartbeat)))
  }

  /** scheduleHeartbeatRecoveryProbe */
  function ScheduleProbe(s: ClientState): ClientState {
    if || !s.heartbeat.negotiated || s.heartbeat.healthy || !s.session.handshakeComplete || !s.process.running
       || s.process.stopping || s.process.suppressed || s.heartbeat.recoveryAttempt >= MAXIMUM_RECOVERY_PROBES
    then s
    else
      var attempt := s.heartbeat.recoveryAttempt + 1;
      var probe := Probe(attempt, s.process.generation);
      s.(heartbeat := s.heartbeat.(recoveryAttempt := attempt, probes := s.heartbeat.probes + multiset{probe}))
  }

  predicate CanAct(s: ClientState, probe: Probe) {
    && probe.generation == s.process.generation && probe.attempt == s.heartbeat.recoveryAttempt
    && !s.heartbeat.healthy && s.session.handshakeComplete && s.process.running
    && !s.process.stopping && !s.process.suppressed && s.heartbeat.id == 0
  }

  predicate SubscriptionPending(s: ClientState) {
    exists id | id in s.requests.pending ::
      s.requests.pending[id].generation == s.process.generation && IsSubscription(s.requests.pending[id].verb)
  }

  predicate DeadlineCurrent(s: ClientState) {
    && s.heartbeat.negotiated && s.session.handshakeComplete && s.heartbeat.id != 0
    && s.heartbeat.deadlineId == s.heartbeat.id
    && s.heartbeat.deadlineGeneration == s.heartbeat.generation
    && s.heartbeat.deadlineGeneration == s.process.generation
  }

  function Unanswered(h: Heartbeat): Heartbeat {
    h.(id := 0, deadlineId := 0, nonce := NoNonce, generation := 0, deadlineGeneration := 0)
  }

  /** The outstanding heartbeat is retired without an answer. */
  function Unbeaten(s: ClientState): ClientState {
    s.(requests := Remove(Retire(s.requests, s.heartbeat.id), s.heartbeat.id), heartbeat := Unanswered(s.heartbeat))
  }

  /** handleHeartbeatTimeout */
  function HeartbeatTimeout(s: ClientState, env: Environment): ClientState {
    if !DeadlineCurrent(s) then s
    else if SubscriptionPending(s) then AbandonAmbiguous(Unbeaten(s), env)
    else ScheduleProbe(FailOrdinary(Unhealthy(Unbeaten(s)), env))
  }

  // ---------------------------------------------------------------------
  // Incoming messages

  /** How the generated decoder classifies a response. */
  datatype Decoding = Rejected | Unmatched | Matched

  /**
   * The rest of a response. An error body says whether code and message are present, whether the
   * code is that of a retention gap and whether the data pass the method's check; a result body
   * whether its type is right, whether it passes the method's check, which nonce it echoes and what
   * it says as the answer to initialize.
   */
  datatype Body =
    | Neither
    | ErrorBody(wellFormed: bool, retentionGap: bool, dataValid: bool)
    | ResultBody(typed: bool, valid: bool, echo: Nonce, hello: InitializeResult)

  datatype Notice =
    | Malformed
    | UnknownRequest
    | UnknownNotification
    | Unprojectable
    | TimelineEvent(valid: bool)
    | SubscriptionEvent(valid: bool)
    | SubscriptionFailure(valid: bool)

  /** One line of output as processTransportBytes sees it. */
  datatype Frame =
    | TooLong
    | Undecodable
    | Notification(notice: Notice)
    | Response(id: nat, decoding: Decoding, body: Body)

  predicate Initializing(s: ClientState) {
    !s.session.handshakeComplete && s.session.initializeId != 0
  }

  /** What every malformed frame leads to. */
  function RejectFrame(s: ClientState, env: Environment): ClientState {
    if Initializing(s) then RejectInitialize(s) else RejectProtocol(s, env)
  }

  /** Whether a notification received after the handshake is a protocol error. */
  predicate Offends(capabilities: set<Capability>, notice: Notice) {
    match notice
    case Malformed => true
    case UnknownRequest => true
    case UnknownNotification => false
    case Unprojectable => true
    case TimelineEvent(valid) =>
      && TimelineSubscriptionFixedWatermark !in capabilities
      && (TimelineStreaming !in capabilities || !valid)
    case SubscriptionEvent(valid) => TimelineSubscriptionFixedWatermark !in capabilities || !valid
    case SubscriptionFailure(valid) => TimelineSubscriptionFixedWatermark !in capabilities || !valid
  }

  function ProcessNotification(s: ClientState, env: Environment, notice: Notice): ClientState {
    if !s.session.handshakeComplete || Offends(s.session.capabilities, notice) then RejectFrame(s, env) else s
  }

  predicate PendingCurrent(s: ClientState, id: nat) {
    && id != 0 && id in s.requests.pending
    && s.requests.pending[id].generation == s.process.generation
    && id !in s.requests.retired
  }

  function Deliver(q: Requests, id: nat, generation: nat): Requests {
    Report(Remove(q, id), Delivered(id, generation))
  }

  function Query(s: ClientState, env: Environment, capability: Capability, verb: Method): ClientState {
    if capability in s.session.capabilities then Send(s, env, verb).0 else s
  }

  /** The requests that a usable connection starts with. */
  function StartupQueries(s: ClientState, env: Environment): ClientState {
    var s1 := Query(s, env, Capability.RuntimeHealth, Method.RuntimeHealth);
    var s2 := Query(s1, env, Capability.RuntimeDegradations, Method.RuntimeDegradations);
    var s3 := Query(s2, env, ModelCatalogReadOnly, ModelCatalog);
    var s4 := Query(s3, env, ModelCatalogCacheReadOnly, ModelCatalogCache);
    var s5 := Query(s4, env, ModelCatalogRefreshStatusReadOnly, ModelCatalogRefreshStatus);
    var s6 := Query(s5, env, ModelProfileReadOnly, ModelProfileList);
    if s6.session.recoveryMode then Query(s6, env, Capability.RuntimeRecoveryStatus, Method.RuntimeRecoveryStatus)
    else Query(s6, env, Capability.RuntimeProjectionRecoveryStatus, Method.RuntimeProjectionRecoveryStatus)
  }

  /** The state in which acceptInitializeResponse tries to announce itself. */
  function Negotiated(s: ClientState, hello: InitializeResult): ClientState {
    var id := s.session.initializeId;
    var capabilities := Stable(hello);
    var beating := RuntimeHeartbeatOutOfBand in capabilities;
    var recovery := hello.status.ReadOnlyRecovery?;
    s.(requests := Deliver(Retire(s.requests, id), id, s.process.generation),
       session := s.session.(
         initializeId := 0, initializeGeneration := 0, startupGeneration := 0, handshakeComplete := true,
         ready := hello.status.Ready? || recovery, recoveryMode := recovery,
         capabilities := capabilities, frameLimit := hello.frameLimit),
       heartbeat := s.heartbeat.(negotiated := beating, healthy := beating))
  }

  /** acceptInitializeResponse, with what processMessage does just before it. */
  function AcceptInitialize(s: ClientState, env: Environment, hello: InitializeResult): ClientState {
    var s1 := Negotiated(s, hello);
    if !env.notifies then RejectProtocol(s1, env)
    else
      var s2 := if s1.heartbeat.negotiated then SendHeartbeat(s1, env, false) else s1;
      if s2.reconnect.cycleActive then s2.(session := s2.session.(recoveryPending := true))
      else StartupQueries(s2, env)
  }

  /** A failure of the heartbeat is reported before its request is retired. */
  function Reported(s: ClientState, id: nat): ClientState {
    s.(requests := Report(s.requests, Delivered(id, s.process.generation)))
  }

  function Answer(s: ClientState, id: nat): ClientState {
    s.(requests := Deliver(s.requests, id, s.process.generation))
  }

  function ProcessError(s: ClientState, env: Environment, id: nat, verb: Method, body: Body): ClientState
    requires body.ErrorBody?
  {
    if !body.wellFormed then RejectProtocol(s, env)
    else if verb.RuntimeHeartbeat? then HeartbeatTimeout(Reported(s, id), env)
    else if (IsSubscription(verb) || (verb.TimelineSync? && body.retentionGap)) && !body.dataValid then
      RejectProtocol(s, env)
    else Answer(s, id)
  }

  function ProcessHeartbeat(s: ClientState, env: Environment, id: nat, body: Body): ClientState
    requires body.ResultBody?
  {
    if id != s.heartbeat.id || s.heartbeat.generation != s.process.generation || !body.valid || body.echo != s.heartbeat.nonce
    then RejectProtocol(s, env)
    else
      Answer(s, id).(heartbeat := Unanswered(s.heartbeat).(
                       healthy := true, recoveryAttempt := 0, beats := Answered(s.heartbeat.beats)))
  }

  /** The methods whose results are checked before they are delivered. */
  predicate ResultIsChecked(verb: Method) {
    || IsSubscription(verb) || verb.TurnStart? || verb.SessionMutationAcknowledgements?
    || verb.MutationAcknowledgementConsume? || verb.ArtifactReadCommandOutputPage?
  }

  function ProcessResult(s: ClientState, env: Environment, id: nat, verb: Method, body: Body): ClientState
    requires body.ResultBody?
  {
    if !body.typed then RejectProtocol(s, env)
    else if verb.RuntimeHeartbeat? then ProcessHeartbeat(s, env, id, body)
    else if ResultIsChecked(verb) && !body.valid then RejectProtocol(s, env)
    else Answer(s, id)
  }

  function ProcessInitialize(s: ClientState, env: Environment, body: Body): ClientState {
    if body.ResultBody? && body.typed && ValidInitialize(body.hello) then AcceptInitialize(s, env, body.hello)
    else RejectInitialize(s)
  }

  /** The response to a pending request before the handshake; only the one to initialize is expected. */
  function DispatchEarly(s: ClientState, env: Environment, id: nat, verb: Method, body: Body): ClientState {
    if id != s.session.initializeId || !verb.Initialize? || s.session.initializeGeneration != s.process.generation
    then RejectInitialize(s)
    else if body.Neither? then RejectFrame(s, env)
    else ProcessInitialize(s, env, body)
  }

  /** The response to a pending request after the handshake. */
  function DispatchLate(s: ClientState, env: Environment, id: nat, verb: Method, body: Body): ClientState {
    if verb.Initialize? || body.Neither? then RejectProtocol(s, env)
    else if body.ErrorBody? then ProcessError(s, env, id, verb, body)
    else ProcessResult(s, env, id, verb, body)
  }

  function Dispatch(s: ClientState, env: Environment, id: nat, verb: Method, body: Body): ClientState {
    if s.session.handshakeComplete then DispatchLate(s, env, id, verb, body) else DispatchEarly(s, env, id, verb, body)
  }

  function ProcessResponse(s: ClientState, env: Environment, id: nat, decoding: Decoding, body: Body): ClientState {
    if decoding.Rejected? then RejectFrame(s, env)
    else if decoding.Unmatched? || !PendingCurrent(s, id) then s
    else Dispatch(s, env, id, s.requests.pending[id].verb, body)
  }

  function ProcessFrame(s: ClientState, env: Environment, frame: Frame): ClientState {
    match frame
    case TooLong => RejectFrame(s, env)
    case Undecodable => RejectFrame(s, env)
    case Notification(notice) => ProcessNotification(s, env, notice)
    case Response(id, decoding, body) => ProcessResponse(s, env, id, decoding, body)
  }

  /** The frames of one read; only the first two kinds end the loop. */
  function ProcessFrames(s: ClientState, env: Environment, frames: seq<Frame>): ClientState
    decreases |frames|
  {
    if frames == [] then s
    else if FrameLimit(s) <= 0 then RejectProtocol(s, env)
    else
      var s1 := ProcessFrame(s, env, frames[0]);
      if frames[0].TooLong? || frames[0].Undecodable? then s1 else ProcessFrames(s1, env, frames[1..])
  }

  // ---------------------------------------------------------------------
  // Steps

  datatype Event =
    | Start
    | Stop
    | SetEmergencyDisabled(disabled: bool)
    | Ask(call: Call, identified: bool)
    | Abandon
    | CompleteRecovery(generation: nat, success: bool)
    | StartupTimer
    | HeartbeatTimer
    | DeadlineTimer
    | ReconnectTimer
    | StabilityTimer
    | ProbeTimer(probe: Probe)
    | Read(frames: seq<Frame>)
    | ErrorOccurred(crashed: bool)
    | FailedToStart
    | Finished

  function IsHealthy(s: ClientState): bool {
    !s.heartbeat.negotiated || s.heartbeat.healthy
  }

  /** isReady */
  predicate IsReady(s: ClientState) {
    s.session.ready && !s.session.recoveryPending && IsHealthy(s)
  }

  /** isReconnectRecoveryAvailable */
  predicate IsReconnectRecoveryAvailable(s: ClientState) {
    s.session.recoveryPending && s.session.handshakeComplete && IsHealthy(s) && s.process.running
  }

  /** start */
  function OnStart(s: ClientState, env: Environment): ClientState {
    if s.process.running || s.reconnect.state.Waiting? || s.reconnect.state.Restarting? then s
    else
      var s1 := s.(process := s.process.(suppressed := false, stopping := false),
                   reconnect := s.reconnect.(
                     timerActive := false, stabilityGeneration := 0, attempt := 0, cycleActive := false, state := Idle,
                     relaunches := Reset(s.reconnect.relaunches)));
      LaunchProcess(s1, env, false)
  }

  /** No reconnect any more, and a process that runs is on its way out. */
  function Stopping(s: ClientState): ClientState {
    s.(process := s.process.(suppressed := true, terminationPending := false, stopping := s.process.running),
       reconnect := s.reconnect.(
         timerActive := false, stabilityGeneration := 0, cycleActive := false, scheduledGeneration := 0, state := Idle))
  }

  /** stop */
  function OnStop(s: ClientState, env: Environment): ClientState {
    if s.process.running && s.session.handshakeComplete then Send(Stopping(s), env, Shutdown).0 else Stopping(s)
  }

  function Policy(s: ClientState, disabled: bool): ClientState {
    s.(process := s.process.(emergency := disabled),
       reconnect := s.reconnect.(
         timerActive := false, state := if s.reconnect.state.Waiting? then Idle else s.reconnect.state))
  }

  /** Everything pending fails, an open handshake too; its id stays with the session. */
  function RestartForPolicy(s: ClientState, env: Environment): ClientState {
    var stopping := SetState(s.(process := s.process.(policyRestart := true, stopping := true, suppressed := true)), Idle);
    FailPending(stopping.(requests := Report(stopping.requests, PolicyChanged(stopping.session.initializeId))), env)
  }

  /** setEmergencyDisabled; the start that it defers is a step of its own. */
  function OnSetEmergency(s: ClientState, env: Environment, disabled: bool): ClientState {
    if s.process.emergency == disabled then s
    else if !s.process.running || s.process.startedEmergency == disabled then Policy(s, disabled)
    else
      var s1 := RestartForPolicy(Policy(s, disabled), env);
      if s1.session.handshakeComplete then Send(s1, env, Shutdown).0 else s1
  }

  /** abandonTimelineSubscriptionConnection */
  function OnAbandon(s: ClientState, env: Environment): ClientState {
    if s.process.stopping || s.reconnect.terminationPending || s.process.terminationPending || s.process.suppressed
    then s else AbandonAmbiguous(s, env)
  }

  function Recovered(s: ClientState): ClientState {
    var r := s.reconnect.(cycleActive := false, state := Idle);
    s.(session := s.session.(recoveryPending := false),
       reconnect := if r.attempt > 0 then r.(stabilityGeneration := s.process.generation) else r)
  }

  function Unrecovered(s: ClientState): ClientState {
    SetState(s.(session := s.session.(recoveryPending := false), process := s.process.(suppressed := true)), Exhausted)
  }

  predicate CanComplete(s: ClientState, generation: nat) {
    && s.session.recoveryPending && generation != 0 && generation == s.process.generation
    && s.session.handshakeComplete && s.process.running
  }

  /** completeReconnectRecovery */
  function OnCompleteRecovery(s: ClientState, env: Environment, generation: nat, success: bool): ClientState {
    if !CanComplete(s, generation) then s
    else if !success then Unrecovered(s)
    else if s.session.ready && IsHealthy(s) then StartupQueries(Recovered(s), env)
    else Recovered(s)
  }

  function OnStartupTimer(s: ClientState, env: Environment): ClientState {
    if && !s.session.ready && s.session.startupGeneration == s.process.generation && s.process.running
       && !s.process.stopping && !s.process.suppressed
    then
      var s1 := GiveUp(s, env);
      s1.(process := s1.process.(terminationPending := true))
    else s
  }

  function OnStabilityTimer(s: ClientState): ClientState {
    if && s.reconnect.stabilityGeneration != 0 && s.reconnect.stabilityGeneration == s.process.generation
       && s.reconnect.state.Idle? && IsReady(s) && s.reconnect.attempt > 0
    then
      s.(reconnect := s.reconnect.(stabilityGeneration := 0, attempt := 0, relaunches := Reset(s.reconnect.relaunches)))
    else s
  }

  function OnProbeTimer(s: ClientState, env: Environment, probe: Probe): ClientState {
    var s1 := s.(heartbeat := s.heartbeat.(probes := s.heartbeat.probes - multiset{probe}));
    if CanAct(s1, probe) then SendHeartbeat(s1, env, true) else s1
  }

  function OnRead(s: ClientState, env: Environment, frames: seq<Frame>): ClientState {
    if s.process.discardOutput then s else ProcessFrames(s, env, frames)
  }

  function Down(s: ClientState): ClientState {
    s.(process := s.process.(running := false, stopping := false), session := s.session.(startupGeneration := 0))
  }

  /** The end of a process that was restarted for a change of policy; the start that follows is deferred. */
  function DownForPolicy(s: ClientState): ClientState {
    var cleared := Clear(s);
    SetState(cleared.(process := cleared.process.(policyRestart := false, suppressed := false)), Idle)
  }

  /** The end of a process that nobody has asked to end, or that stop has ended. */
  function DownUnplanned(s: ClientState, env: Environment, expected: bool): ClientState {
    var failed := FailPending(Clear(s), env);
    if expected || failed.process.suppressed then
      if failed.reconnect.state.Exhausted? then failed else SetState(failed, Idle)
    else if failed.reconnect.state.Waiting? then failed
    else ScheduleReconnect(failed)
  }

  /** The slot behind QProcess::finished. */
  function OnFinished(s: ClientState, env: Environment): ClientState {
    var down := Down(s);
    if down.process.policyRestart then DownForPolicy(down)
    else if down.process.terminationPending then
      Clear(down.(process := down.process.(terminationPending := false)))
    else if down.reconnect.terminationPending && down.reconnect.terminationGeneration == down.process.generation then
      if !s.process.stopping && !down.process.suppressed && down.reconnect.state.Restarting?
      then LaunchProcess(Settled(down), env, true) else Settled(down)
    else DownUnplanned(down, env, s.process.stopping)
  }

  /** A timer fires only while it is active, and a process ends only while it runs. */
  predicate Enabled(s: ClientState, event: Event) {
    match event
    case Ask(call, _) => !call.verb.Initialize? && !call.verb.RuntimeHeartbeat?
    case ReconnectTimer => s.reconnect.timerActive
    case ProbeTimer(probe) => probe in s.heartbeat.probes
    case FailedToStart => s.process.running
    case Finished => s.process.running
    case _ => true
  }

  function Step(s: ClientState, env: Environment, event: Event): ClientState {
    if !Enabled(s, event) then s
    else
      match event
      case Start => OnStart(s, env)
      case Stop => OnStop(s, env)
      case SetEmergencyDisabled(disabled) => OnSetEmergency(s, env, disabled)
      case Ask(call, identified) => SendRequest(s, env, call, identified || !IsSubscription(call.verb)).0
      case Abandon => OnAbandon(s, env)
      case CompleteRecovery(generation, success) => OnCompleteRecovery(s, env, generation, success)
      case StartupTimer => OnStartupTimer(s, env)
      case HeartbeatTimer => SendHeartbeat(s, env, false)
      case DeadlineTimer => HeartbeatTimeout(s, env)
      case ReconnectTimer => BeginReconnect(s.(reconnect := s.reconnect.(timerActive := false)), env)
      case StabilityTimer => OnStabilityTimer(s)
      case ProbeTimer(probe) => OnProbeTimer(s, env, probe)
      case Read(frames) => OnRead(s, env, frames)
      case ErrorOccurred(crashed) => OnError(s, env, crashed)
      case FailedToStart => OnError(s.(process := s.process.(running := false)), env, false)
      case Finished => OnFinished(s, env)
  }

  /** The constructor. */
  function Delays(backoff: seq<int>): seq<nat> {
    var given := if backoff == [] then [0, 500, 2000] else backoff;
    var kept := if |given| > MAXIMUM_RECONNECT_ATTEMPTS then given[..MAXIMUM_RECONNECT_ATTEMPTS] else given;
    seq(|kept|, i requires 0 <= i < |kept| =>
      if kept[i] < 0 then 0 else if kept[i] > MAXIMUM_RECONNECT_DELAY_MS then MAXIMUM_RECONNECT_DELAY_MS else kept[i])
  }

  function Initial(backoff: seq<int>): ClientState {
    ClientState(
      Process(false, 0, false, false, false, false, false, false, false),
      CLOSED_SESSION,
      Heartbeat(false, false, 0, 0, NoNonce, 0, 0, 0, 0, multiset{}, NoBeat),
      Reconnect(Delays(backoff), 0, Idle, 0, false, 0, 0, false, false, NoRelaunch),
      Requests(0, map[], {}, [], Silence))
  }

  datatype Occurrence = Occurrence(event: Event, env: Environment)

  /** A run: what happens, one step after the other. */
  function Run(s: ClientState, run: seq<Occurrence>): ClientState
    decreases |run|
  {
    if run == [] then s else Run(Step(s, run[0].env, run[0].event), run[1..])
  }
}
