// What the runtime client does, step by step, in terms of its fields: the end of a process is
// followed by a relaunch, a relaunch by a handshake, a handshake by a usable connection.

module ClientProgress {
  import opened Capabilities
  import opened ClientState
  import opened ClientRequests
  import opened ClientInvariants
  import opened ClientRuns
  import opened ClientReadiness
  import opened ClientReports
  import opened ClientGuarantees

  // ---------------------------------------------------------------------
  // The end of a process

  /** A process that runs, and that nobody has asked to end. */
  predicate Undisturbed(s: ClientState) {
    && s.process.running && !s.process.stopping && !s.process.suppressed
    && !s.process.policyRestart && !s.process.terminationPending
    && !(s.reconnect.terminationPending && s.reconnect.terminationGeneration == s.process.generation)
  }

  /** No process, no session and nothing to wait for. */
  predicate Ended(s: ClientState) {
    && !s.process.running && !s.process.stopping
    && !s.session.handshakeComplete && s.session.initializeId == 0 && !s.session.ready && !s.session.recoveryPending
    && !s.heartbeat.negotiated && s.heartbeat.id == 0
    && s.requests.pending == map[]
  }

  /** The next attempt is scheduled; without one left the reconnection is exhausted. */
  predicate Reschedules(s: ClientState, next: ClientState) {
    && next.reconnect.backoff == s.reconnect.backoff && next.process.generation == s.process.generation
    && next.reconnect.cycleActive
    && if s.reconnect.attempt < |s.reconnect.backoff| then Due(next) && next.reconnect.attempt == s.reconnect.attempt + 1
       else next.reconnect.state.Exhausted? && !next.reconnect.timerActive && next.reconnect.attempt == s.reconnect.attempt
  }

  /** Every request that was pending is reported, but for the heartbeat, which the client asked itself. */
  predicate FailsPending(s: ClientState, next: ClientState, id: nat) {
    Reports(next, id) == Reports(s, id) + if id in s.requests.pending && id != s.heartbeat.id then 1 else 0
  }

  lemma ClearedPending(s: ClientState)
    ensures Clear(s).requests.pending == if s.heartbeat.id != 0 then s.requests.pending - {s.heartbeat.id} else s.requests.pending
    ensures Clear(s).requests.wire == s.requests.wire
  {
  }

  lemma FailedAll(s: ClientState, env: Environment, id: nat)
    ensures var next := FailPending(s, env);
            && next == s.(requests := next.requests) && next.requests.pending == map[]
            && Reports(next, id) == Reports(s, id) + if id in s.requests.pending then 1 else 0
  {
    RetireAllTouches(s.requests.(pending := map[]), env.order(s.requests.pending.Keys));
    assert s.requests.pending - s.requests.pending.Keys == map[];
  }

  /** Closing the session and failing what is pending, as every handler does when a connection is over. */
  lemma ClosedAndFailed(s: ClientState, env: Environment, id: nat)
    requires id > 0
    ensures var next := FailPending(Clear(s), env);
            && next.process == s.process && next.reconnect == s.reconnect.(stabilityGeneration := 0)
            && next.session == CLOSED_SESSION && !next.heartbeat.negotiated && next.heartbeat.id == 0
            && next.requests.pending == map[] && FailsPending(s, next, id)
  {
    ClearedPending(s);
    FailedAll(Clear(s), env, id);
  }

  lemma UnplannedEnd(s: ClientState, env: Environment, id: nat)
    requires Undisturbed(s) && !s.reconnect.state.Waiting? && id > 0
    ensures var next := OnFinished(s, env);
            Ended(next) && Reschedules(s, next) && FailsPending(s, next, id)
  {
    var down := Down(s);
    ClosedAndFailed(down, env, id);
    var failed := FailPending(Clear(down), env);
    assert OnFinished(s, env) == DownUnplanned(down, env, false);
    assert DownUnplanned(down, env, false) == ScheduleReconnect(failed);
  }

  /**
   * A process that ends although nobody asked it to leaves no session and nothing pending, and the
   * relaunch is due in the same generation; after the last attempt the reconnection is exhausted.
   */
  lemma UnexpectedEnd(s: ClientState, env: Environment, id: nat)
    requires Undisturbed(s) && !s.reconnect.state.Waiting? && id > 0
    ensures var next := Step(s, env, Finished);
            Ended(next) && Reschedules(s, next) && FailsPending(s, next, id)
  {
    UnplannedEnd(s, env, id);
  }

  /** The same in every run: no reachable client that runs waits for a relaunch already. */
  lemma UnexpectedEndInRuns(backoff: seq<int>, run: seq<Occurrence>, env: Environment, id: nat)
    requires Undisturbed(Run(Initial(backoff), run)) && id > 0
    ensures var s := Run(Initial(backoff), run);
            var next := Step(s, env, Finished);
            Ended(next) && Reschedules(s, next) && FailsPending(s, next, id)
  {
    RunPlaced(Initial(backoff), run);
    UnexpectedEnd(Run(Initial(backoff), run), env, id);
  }

  /** A process that stop has ended is not relaunched: the reconnection is idle, or stays exhausted. */
  lemma StoppedEnd(s: ClientState, env: Environment, id: nat)
    requires s.process.running && s.process.stopping && id > 0
    requires !s.process.policyRestart && !s.process.terminationPending
    requires !(s.reconnect.terminationPending && s.reconnect.terminationGeneration == s.process.generation)
    ensures var next := Step(s, env, Finished);
            && Ended(next) && FailsPending(s, next, id)
            && next.reconnect == s.reconnect.(stabilityGeneration := 0, state := next.reconnect.state)
            && next.reconnect.state == if s.reconnect.state.Exhausted? then Exhausted else Idle
  {
    ClosedAndFailed(Down(s), env, id);
  }

  /** A process that a change of policy has ended leaves a client that start may launch again. */
  lemma PolicyEnd(s: ClientState, env: Environment)
    requires s.process.running && s.process.policyRestart
    ensures var next := Step(s, env, Finished);
            && !next.process.running && !next.process.stopping && !next.process.suppressed && !next.process.policyRestart
            && next.session == CLOSED_SESSION && next.reconnect.state.Idle?
            && next.process.generation == s.process.generation
  {
  }

  // ---------------------------------------------------------------------
  // Launches

  /** A process runs in a new generation, and its handshake is open: the one request that is pending. */
  predicate Opened(s: ClientState, next: ClientState) {
    var id, generation := s.requests.next + 1, s.process.generation + 1;
    && next.process.running && next.process.generation == generation && !next.process.discardOutput
    && next.process.startedEmergency == s.process.emergency
    && next.requests.next == id && next.requests.pending == map[id := Pending(Initialize, generation)]
    && next.session.initializeId == id && next.session.initializeGeneration == generation
    && next.session.startupGeneration == generation
    && !next.session.handshakeComplete && !next.session.ready && !next.session.recoveryPending
    && !next.heartbeat.negotiated && next.heartbeat.id == 0
  }

  /** The launch succeeds, and the first frame can be written. */
  predicate Launches(s: ClientState, env: Environment) {
    env.launch == Started(true) && env.write(s.requests.next + 1) == Written
  }

  lemma LaunchOpens(s: ClientState, env: Environment, reconnect: bool)
    requires Launches(s, env) && !s.process.running && !s.process.stopping && !s.process.suppressed
    ensures var next := LaunchProcess(s, env, reconnect);
            && Opened(s, next) && !next.process.suppressed && !next.process.stopping
            && next.reconnect == s.reconnect.(
                 stabilityGeneration := 0,
                 relaunches := if reconnect then Relaunched(s.reconnect.relaunches) else s.reconnect.relaunches)
  {
    var s1 := if reconnect then s.(reconnect := s.reconnect.(relaunches := Relaunched(s.reconnect.relaunches))) else s;
    var up := Running(Generation(s1), true);
    var s2 := up.(session := up.session.(startupGeneration := up.process.generation));
    assert LaunchProcess(s, env, reconnect) == Launched(Generation(s1), env);
    assert Launched(Generation(s1), env) == SendInitialize(s2, env);
    assert Admitted(s2, env.platform, Plain(Initialize));
    assert Send(s2, env, Initialize) == (Issued(s2, Plain(Initialize)), s2.requests.next + 1);
  }

  /** start() begins a new generation and opens its handshake, unless a process runs or is about to. */
  lemma StartOpens(s: ClientState, env: Environment)
    requires Launches(s, env)
    ensures var next := Step(s, env, Start);
            if s.process.running || s.reconnect.state.Waiting? || s.reconnect.state.Restarting? then next == s
            else
              && Opened(s, next) && !next.process.suppressed && !next.process.stopping
              && next.reconnect.state.Idle? && next.reconnect.attempt == 0 && !next.reconnect.cycleActive
  {
    var s1 := s.(process := s.process.(suppressed := false, stopping := false),
                 reconnect := s.reconnect.(
                   timerActive := false, stabilityGeneration := 0, attempt := 0, cycleActive := false, state := Idle,
                   relaunches := Reset(s.reconnect.relaunches)));
    if !s.process.running && !s.reconnect.state.Waiting? && !s.reconnect.state.Restarting? {
      LaunchOpens(s1, env, false);
    }
  }

  /** A relaunch that is due begins the next generation on behalf of the reconnect cycle. */
  lemma RelaunchOpens(s: ClientState, env: Environment)
    requires Due(s) && Launches(s, env)
    ensures var next := Step(s, env, ReconnectTimer);
            && Opened(s, next) && next.reconnect.state.Restarting? && !next.reconnect.timerActive
            && next.reconnect.cycleActive == s.reconnect.cycleActive && next.reconnect.attempt == s.reconnect.attempt
            && next.reconnect.relaunches == Relaunched(s.reconnect.relaunches)
  {
    var s1 := s.(reconnect := s.reconnect.(timerActive := false));
    LaunchOpens(SetState(s1.(reconnect := s1.reconnect.(scheduledGeneration := 0)), Restarting), env, true);
  }

  /** A generation that was being terminated for a reconnect is followed by the next one at once. */
  lemma OwedEndOpens(s: ClientState, env: Environment)
    requires s.process.running && !s.process.stopping && !s.process.suppressed
    requires !s.process.policyRestart && !s.process.terminationPending
    requires s.reconnect.terminationPending && s.reconnect.terminationGeneration == s.process.generation
    requires s.reconnect.state.Restarting? && Launches(s, env)
    ensures var next := Step(s, env, Finished);
            && Opened(s, next) && next.reconnect.state.Restarting? && !next.reconnect.terminationPending
            && next.reconnect.relaunches == Relaunched(s.reconnect.relaunches)
  {
    LaunchOpens(Settled(Down(s)), env, true);
  }

  /** A client whose process has crashed comes back: the next timer opens the handshake of a new generation. */
  lemma CrashedClientComesBack(backoff: seq<int>, run: seq<Occurrence>, ending: Environment, env: Environment)
    requires var s := Run(Initial(backoff), run);
             Undisturbed(s) && s.reconnect.attempt < |s.reconnect.backoff|
    requires Launches(Step(Run(Initial(backoff), run), ending, Finished), env)
    ensures var s := Run(Initial(backoff), run);
            var next := Step(Step(s, ending, Finished), env, ReconnectTimer);
            && Opened(Step(s, ending, Finished), next) && next.process.generation == s.process.generation + 1
            && next.reconnect.cycleActive && next.reconnect.attempt == s.reconnect.attempt + 1
  {
    UnexpectedEndInRuns(backoff, run, ending, 1);
    RelaunchOpens(Step(Run(Initial(backoff), run), ending, Finished), env);
  }

  /** The delays of a client: at most three of those given, each between nothing and half a minute. */
  lemma DelaysAre(given: seq<int>)
    ensures var delays := Initial(given).reconnect.backoff;
            && (given == [] ==> delays == [0, 500, 2000])
            && (given != [] ==> |delays| == if |given| < 3 then |given| else 3)
            && (forall i | 0 <= i < |delays| && given != [] ::
                  delays[i] == if given[i] < 0 then 0 else if given[i] > 30000 then 30000 else given[i])
  {
  }
}
