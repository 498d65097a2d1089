// What the invariant of the runtime client means for its runs, and where a plausible claim fails.

module ClientGuarantees {
  import opened Capabilities
  import opened ClientState
  import opened ClientRequests
  import opened ClientInvariants
  import opened ClientSteps
  import opened ClientHeartbeats
  import opened ClientMessages
  import opened ClientRuns
  import opened ClientReadiness
  import opened ClientReports

  lemma ReachableOk(backoff: seq<int>, run: seq<Occurrence>)
    requires FairRun(run)
    ensures Inv(Run(Initial(backoff), run))
  {
    InitialOk(backoff);
    RunKeeps(Initial(backoff), run);
  }

  // ---------------------------------------------------------------------
  // Reconnecting

  /** Relaunches never outnumber the attempts taken since the last reset, and attempts never the delays. */
  lemma RelaunchesBounded(backoff: seq<int>, run: seq<Occurrence>)
    requires FairRun(run)
    ensures var r := Run(Initial(backoff), run).reconnect;
            LaunchesSinceReset(r.relaunches) <= r.attempt <= |r.backoff| <= 3
  {
    ReachableOk(backoff, run);
  }

  lemma FailedStartReschedules(s: ClientState, env: Environment)
    requires !s.process.running && !s.process.stopping && !s.process.suppressed && env.launch.StartFailed?
    requires s.reconnect.state.Idle? || s.reconnect.state.Restarting?
    ensures var s1 := Launched(s, env);
            && s1.reconnect.relaunches == s.reconnect.relaunches && s1.reconnect.backoff == s.reconnect.backoff
            && (s.reconnect.attempt < |s.reconnect.backoff| ==> Due(s1) && s1.reconnect.attempt == s.reconnect.attempt + 1)
            && (s.reconnect.attempt >= |s.reconnect.backoff| ==>
                  s1.reconnect.state.Exhausted? && s1.reconnect.attempt == s.reconnect.attempt)
  {
    var down := Running(s, false);
    HandleRetryableReschedules(down, env);
  }

  lemma HandleRetryableReschedules(s: ClientState, env: Environment)
    requires !s.process.running && !s.process.stopping && !s.process.suppressed
    ensures var s1 := HandleRetryable(s, env);
            && s1.process == s.process && s1.reconnect == ScheduleReconnect(s).reconnect.(stabilityGeneration := 0)
  {
  }

  /** A due relaunch whose process does not start makes the next one due, or is the last. */
  lemma FailedRelaunch(s: ClientState, env: Environment)
    requires Due(s) && env.launch.StartFailed?
    ensures var s1 := Step(s, env, ReconnectTimer);
            && s1.reconnect.relaunches == Relaunched(s.reconnect.relaunches) && s1.reconnect.backoff == s.reconnect.backoff
            && (s.reconnect.attempt < |s.reconnect.backoff| ==> Due(s1) && s1.reconnect.attempt == s.reconnect.attempt + 1)
            && (s.reconnect.attempt >= |s.reconnect.backoff| ==>
                  s1.reconnect.state.Exhausted? && s1.reconnect.attempt == s.reconnect.attempt)
  {
    var fired := s.(reconnect := s.reconnect.(timerActive := false));
    var called := SetState(fired.(reconnect := fired.reconnect.(scheduledGeneration := 0)), Restarting);
    var recorded := called.(reconnect := called.reconnect.(relaunches := Relaunched(called.reconnect.relaunches)));
    FailedStartReschedules(Generation(recorded), env);
  }

  function Repeated(occurrence: Occurrence, n: nat): seq<Occurrence> {
    seq(n, i => occurrence)
  }

  lemma RunRepeated(s: ClientState, occurrence: Occurrence, n: nat)
    ensures Run(s, Repeated(occurrence, n + 1)) == Run(Step(s, occurrence.env, occurrence.event), Repeated(occurrence, n))
  {
    assert Repeated(occurrence, n + 1)[1..] == Repeated(occurrence, n);
  }

  /** The attempts are used up and nothing more is scheduled. */
  predicate UsedUp(r: Reconnect, before: Reconnect, launches: nat) {
    && r.state.Exhausted? && r.attempt == |before.backoff|
    && LaunchesSinceReset(r.relaunches) == LaunchesSinceReset(before.relaunches) + launches
  }

  lemma OneLaunchMore(end: Reconnect, next: Reconnect, before: Reconnect, launches: nat)
    requires UsedUp(end, next, launches)
    requires next.relaunches == Relaunched(before.relaunches) && next.backoff == before.backoff
    ensures UsedUp(end, before, launches + 1)
  {
  }

  lemma NothingRepeated(s: ClientState, occurrence: Occurrence)
    ensures Run(s, Repeated(occurrence, 0)) == s
  {
  }

  /** If no process ever starts, every delay that is left is used once more, and then the client gives up. */
  lemma {:induction false} ExhaustedAfterAllDelays(s: ClientState, env: Environment)
    requires Due(s) && env.launch.StartFailed? && s.reconnect.attempt <= |s.reconnect.backoff|
    ensures var left := |s.reconnect.backoff| - s.reconnect.attempt + 1;
            UsedUp(Run(s, Repeated(Occurrence(ReconnectTimer, env), left)).reconnect, s.reconnect, left)
    decreases |s.reconnect.backoff| - s.reconnect.attempt
  {
    var left := |s.reconnect.backoff| - s.reconnect.attempt + 1;
    var again := Occurrence(ReconnectTimer, env);
    var next := Step(s, env, ReconnectTimer);
    FailedRelaunch(s, env);
    RunRepeated(s, again, left - 1);
    if left > 1 {
      ExhaustedAfterAllDelays(next, env);
    } else {
      NothingRepeated(next, again);
    }
    OneLaunchMore(Run(next, Repeated(again, left - 1)).reconnect, next.reconnect, s.reconnect, left - 1);
  }

  /** A client whose first process does not start has its first relaunch due. */
  lemma FirstStartFails(backoff: seq<int>, env: Environment)
    requires env.launch.StartFailed?
    ensures var s := Step(Initial(backoff), env, Start);
            && Due(s) && s.reconnect.backoff == Delays(backoff) && s.reconnect.attempt == 1 <= |Delays(backoff)|
            && LaunchesSinceReset(s.reconnect.relaunches) == 0
  {
    var s0 := Initial(backoff);
    var s1 := s0.(reconnect := s0.reconnect.(relaunches := Reset(NoRelaunch)));
    FailedStartReschedules(Generation(s1), env);
    assert Step(s0, env, Start) == Launched(Generation(s1), env);
    assert |Delays(backoff)| > 0;
  }

  /** The bound on relaunches is attained: a client whose processes never start makes one for every delay. */
  lemma BoundAttained(backoff: seq<int>, env: Environment)
    requires env.launch.StartFailed?
    ensures var delays := |Delays(backoff)|;
            var run := [Occurrence(Start, env)] + Repeated(Occurrence(ReconnectTimer, env), delays);
            var r := Run(Initial(backoff), run).reconnect;
            LaunchesSinceReset(r.relaunches) == r.attempt == delays && r.state.Exhausted?
  {
    var again := Repeated(Occurrence(ReconnectTimer, env), |Delays(backoff)|);
    var run := [Occurrence(Start, env)] + again;
    FirstStartFails(backoff, env);
    ExhaustedAfterAllDelays(Step(Initial(backoff), env, Start), env);
    assert run[1..] == again;
  }

  /** In every run a client that waits has a relaunch due: its timer is active and nothing stands in the way. */
  lemma WaitingIsDue(backoff: seq<int>, run: seq<Occurrence>)
    ensures var s := Run(Initial(backoff), run);
            s.reconnect.state.Waiting? ==> Due(s)
  {
    RunPlaced(Initial(backoff), run);
  }

  // ---------------------------------------------------------------------
  // Requests

  /** The pending ids and the retired ones are apart, and the retired set is its bounded order list. */
  lemma PendingAndRetiredApart(backoff: seq<int>, run: seq<Occurrence>)
    requires FairRun(run)
    ensures var q := Run(Initial(backoff), run).requests;
            && q.pending.Keys !! q.retired
            && |q.order| <= 1024
            && (forall id :: id in q.order <==> id in q.retired)
            && (forall i, j | 0 <= i < j < |q.order| :: q.order[i] != q.order[j])
  {
    ReachableOk(backoff, run);
    var s := Run(Initial(backoff), run);
    forall id | id in s.requests.pending
      ensures id !in s.requests.retired
    {
      assert PendingOk(s.requests, id, s.process.generation);
    }
  }

  /**
   * Every id is reported at most twice; and at most once exactly if no step of the run reads a
   * faulty frame while the id is that of a handshake which a policy change interrupted.
   */
  lemma ReportedOnce(backoff: seq<int>, run: seq<Occurrence>, id: nat)
    requires FairRun(run)
    ensures var s := Run(Initial(backoff), run);
            && Reports(s, id) <= 2
            && (Reports(s, id) <= 1 <==> forall k | 0 <= k < |run| :: !ReportsAgainAt(Initial(backoff), run, k, id))
  {
    ReachableOk(backoff, run);
    InitialOk(backoff);
    assert ReportsOk(Run(Initial(backoff), run).requests.wire, id);
    ReportedTwiceExactly(Initial(backoff), run, id);
  }

  ghost predicate Occurs(wire: Wire, mark: Mark) {
    match wire
    case Silence => false
    case After(past, last) => mark == last || Occurs(past, mark)
  }

  lemma {:induction false} LawfulMark(wire: Wire, mark: Mark)
    requires Lawful(wire) && Occurs(wire, mark)
    ensures mark.Sent? ==> PhaseAllows(mark.phase, mark.call)
    ensures mark.Delivered? ==> WasSent(wire, mark.id, mark.generation)
  {
    if mark != wire.mark {
      LawfulMark(wire.past, mark);
    }
  }

  /** An id is sent in one generation only. */
  lemma {:induction false} SentOnce(wire: Wire, id: nat, a: nat, b: nat)
    requires Lawful(wire) && WasSent(wire, id, a) && WasSent(wire, id, b)
    ensures a == b
  {
    var mark := wire.mark;
    if !(mark.Sent? && mark.id == id) {
      SentOnce(wire.past, id, a, b);
    } else if WasSent(wire.past, id, a) || WasSent(wire.past, id, b) {
      assert false;
    }
  }

  /** A result is delivered in the one generation that sent its request. */
  lemma DeliveredInItsGeneration(backoff: seq<int>, run: seq<Occurrence>, id: nat, delivered: nat, sent: nat)
    requires FairRun(run)
    requires Occurs(Run(Initial(backoff), run).requests.wire, Delivered(id, delivered))
    ensures WasSent(Run(Initial(backoff), run).requests.wire, id, delivered)
    ensures WasSent(Run(Initial(backoff), run).requests.wire, id, sent) ==> sent == delivered
  {
    ReachableOk(backoff, run);
    var wire := Run(Initial(backoff), run).requests.wire;
    LawfulMark(wire, Delivered(id, delivered));
    if WasSent(wire, id, sent) {
      SentOnce(wire, id, sent, delivered);
    }
  }

  lemma ReachableLawful(backoff: seq<int>, run: seq<Occurrence>)
    requires FairRun(run)
    ensures Lawful(Run(Initial(backoff), run).requests.wire)
  {
    ReachableOk(backoff, run);
  }

  /**
   * The frames ever written in read-only recovery carry its eight methods, those written while the
   * backend is unavailable its five, and those written during a reconnect recovery, with the
   * liveness unknown or under the emergency policy only the methods allowed there.
   */
  lemma WrittenMethods(backoff: seq<int>, run: seq<Occurrence>, id: nat, call: Call, generation: nat, phase: Phase)
    requires FairRun(run)
    requires Occurs(Run(Initial(backoff), run).requests.wire, Sent(id, call, generation, phase))
    ensures PhaseAllows(phase, call)
  {
    ReachableLawful(backoff, run);
    LawfulMark(Run(Initial(backoff), run).requests.wire, Sent(id, call, generation, phase));
  }

  // ---------------------------------------------------------------------
  // Flags

  lemma FlagsNeedHandshake(backoff: seq<int>, run: seq<Occurrence>)
    requires FairRun(run)
    ensures var s := Run(Initial(backoff), run);
            && (s.session.ready || s.session.recoveryMode || s.heartbeat.negotiated || s.session.recoveryPending
                ==> s.session.handshakeComplete)
            && (s.heartbeat.healthy ==> s.heartbeat.negotiated)
            && (s.session.handshakeComplete ==> FrameLimit(s) == 4194304 && s.session.initializeId == 0)
            && FrameLimit(s) == 4194304
            && !(IsReady(s) && IsReconnectRecoveryAvailable(s))
  {
    ReachableOk(backoff, run);
  }

  // ---------------------------------------------------------------------
  // Heartbeats

  /** One heartbeat at most is outstanding, and it is the one the client waits for. */
  lemma OneHeartbeat(backoff: seq<int>, run: seq<Occurrence>, a: nat, b: nat)
    requires FairRun(run)
    requires var q := Run(Initial(backoff), run).requests;
             && a in q.pending && q.pending[a].verb.RuntimeHeartbeat?
             && b in q.pending && q.pending[b].verb.RuntimeHeartbeat?
    ensures var s := Run(Initial(backoff), run);
            a == b == s.heartbeat.id && s.heartbeat.generation == s.process.generation && s.session.handshakeComplete
  {
    ReachableOk(backoff, run);
    assert PendingOk(Run(Initial(backoff), run).requests, a, Run(Initial(backoff), run).process.generation);
  }

  /** At most three probes are written between two answers, and at most one scheduled probe can still act. */
  lemma ProbesBounded(backoff: seq<int>, run: seq<Occurrence>, a: Probe, b: Probe)
    requires FairRun(run)
    ensures var s := Run(Initial(backoff), run);
            && s.heartbeat.recoveryAttempt <= 3
            && ProbesSinceAnswer(s.heartbeat.beats) <= 3
            && (a in s.heartbeat.probes && b in s.heartbeat.probes && CanAct(s, a) && CanAct(s, b)
                ==> a == b && s.heartbeat.probes[a] == 1)
  {
    ReachableOk(backoff, run);
  }

  // ---------------------------------------------------------------------
  // Where the code falls short of a plausible claim

  lemma FirstHeartbeatAdmitted(s: ClientState, platform: Platform, hello: InitializeResult)
    requires s.process.running && !s.session.recoveryPending && s.heartbeat.id == 0
    requires RuntimeHeartbeatOutOfBand in hello.stable
    ensures var s1 := Negotiated(s, hello);
            && MayBeat(s1, false)
            && (Admitted(Counted(s1), platform, Plain(RuntimeHeartbeat)) <==> !s.process.emergency)
  {
  }

  /** What must be true of the first heartbeat for the connection to outlive it. */
  predicate Outlives(env: Environment, id: nat, admitted: bool, suppressed: bool) {
    if admitted then env.write(id).Written? || (env.write(id).TooLarge? && suppressed) else suppressed
  }

  lemma BeatOutcome(s: ClientState, env: Environment, admitted: bool)
    requires s.session.handshakeComplete && FrameLimit(s) > 0
    ensures BeatIf(s, env, false, admitted).session.handshakeComplete
            <==> Outlives(env, s.requests.next + 1, admitted, s.process.suppressed)
  {
  }

  lemma NegotiatedCarries(s: ClientState, hello: InitializeResult)
    ensures var s1 := Negotiated(s, hello);
            && s1.session.handshakeComplete && FrameLimit(s1) == hello.frameLimit
            && s1.requests.next == s.requests.next && s1.process == s.process
  {
    RetireTouchesNothingElse(s.requests, s.session.initializeId);
  }

  lemma RetireTouchesNothingElse(q: Requests, id: nat)
    ensures Retire(q, id).next == q.next
  {
  }

  lemma BeatOf(s: ClientState, env: Environment, admitted: bool)
    requires s.session.handshakeComplete && FrameLimit(s) > 0 && MayBeat(s, false)
    requires Admitted(Counted(s), env.platform, Plain(RuntimeHeartbeat)) <==> admitted
    ensures SendHeartbeat(s, env, false).session.handshakeComplete
            <==> Outlives(env, s.requests.next + 1, admitted, s.process.suppressed)
  {
    BeatOutcome(Counted(s), env, admitted);
  }

  lemma FirstHeartbeat(s: ClientState, env: Environment, hello: InitializeResult)
    requires s.process.running && !s.session.recoveryPending && s.heartbeat.id == 0
    requires hello.frameLimit > 0 && RuntimeHeartbeatOutOfBand in hello.stable
    ensures SendHeartbeat(Negotiated(s, hello), env, false).session.handshakeComplete
            <==> Outlives(env, s.requests.next + 1, !s.process.emergency, s.process.suppressed)
  {
    FirstHeartbeatAdmitted(s, env.platform, hello);
    NegotiatedCarries(s, hello);
    BeatOf(Negotiated(s, hello), env, !s.process.emergency);
  }

  /**
   * Under the emergency policy the first heartbeat is refused, and the refusal ends the connection
   * that has just been accepted unless it is being stopped anyway.
   */
  lemma FirstHeartbeatDecides(s: ClientState, env: Environment, hello: InitializeResult)
    requires Inv(s) && s.process.running && s.session.initializeId != 0
    requires ValidInitialize(hello) && RuntimeHeartbeatOutOfBand in hello.stable
    ensures SendHeartbeat(Negotiated(s, hello), env, false).session.handshakeComplete
            <==> Outlives(env, s.requests.next + 1, !s.process.emergency, s.process.suppressed)
  {
    FirstHeartbeat(s, env, hello);
  }

  /**
   * A client that is ready has an idle reconnection, unless an earlier step failed the recovery of
   * this very generation and no step since then has stopped, restarted or started it.
   */
  lemma ReadyUnlessRecoveryFailed(backoff: seq<int>, run: seq<Occurrence>)
    requires FairRun(run)
    ensures var s := Run(Initial(backoff), run);
            && (IsReady(s) ==> s.reconnect.state.Idle? || (s.reconnect.state.Exhausted? && s.process.suppressed))
            && (IsReady(s) && !s.reconnect.state.Idle?
                <==> && s.session.ready && IsHealthy(s)
                     && exists k | 0 <= k < |run| :: StrandedAt(Initial(backoff), run, k))
  {
    var s0 := Initial(backoff);
    var s := Run(s0, run);
    ReachableOk(backoff, run);
    RunPlaced(s0, run);
    if Marooned(StageOf(s)) {
      var k := MaroonedByFailure(s0, run);
    } else if k :| 0 <= k < |run| && StrandedAt(s0, run, k) {
      FailureMaroons(s0, run, k);
    }
  }
}
