// What every step of the runtime client keeps.

module ClientInvariants {
  import opened Capabilities
  import opened ClientState
  import opened ClientRequests

  // ---------------------------------------------------------------------
  // The invariant

  /** Every flag of a connection presupposes its handshake, and each mode has its own capabilities. */
  ghost predicate SessionOk(c: Session, h: Heartbeat) {
    && (c.ready || c.recoveryPending || h.negotiated ==> c.handshakeComplete)
    && (h.healthy ==> h.negotiated)
    && (c.recoveryMode ==> c.ready && c.capabilities <= WHEN_RECOVERING)
    && (c.handshakeComplete && !c.ready ==> c.capabilities <= WHEN_UNAVAILABLE)
    && (c.handshakeComplete ==> c.frameLimit == MAXIMUM_FRAME_BYTES && c.initializeId == 0)
  }

  /** An open handshake is alone in the table, or a policy change has interrupted it. */
  ghost predicate HandshakeOk(c: Session, q: Requests, generation: nat) {
    c.initializeId != 0 ==>
      && c.initializeGeneration == generation && c.initializeId <= q.next && q.pending.Keys <= {c.initializeId}
      && (if c.initializeId in q.pending then q.pending[c.initializeId].verb.Initialize?
          else Interrupted(q.wire, c.initializeId) && Resolutions(q.wire, c.initializeId) == 1)
  }

  /** The one heartbeat that may be outstanding belongs to the current generation. */
  ghost predicate BeatOk(h: Heartbeat, c: Session, q: Requests, generation: nat) {
    && (h.id != 0 ==> && c.handshakeComplete && h.negotiated && h.deadlineId == h.id && h.id <= q.next
                      && h.generation == h.deadlineGeneration == generation)
    && h.recoveryAttempt <= MAXIMUM_RECOVERY_PROBES
    && (h.healthy || !c.handshakeComplete ==> h.recoveryAttempt == 0)
  }

  ghost predicate NoProbes(h: Heartbeat, generation: nat) {
    ProbesSinceAnswer(h.beats) == 0 && forall p | p in h.probes :: p.generation < generation
  }

  /** While a probe of this generation is scheduled it is the only one, and nothing is outstanding. */
  ghost predicate ProbesOk(h: Heartbeat, c: Session, generation: nat) {
    && (forall p | p in h.probes :: p.generation <= generation)
    && (forall p | p in h.probes && p.generation == generation && c.handshakeComplete ::
          p.attempt == h.recoveryAttempt && h.probes[p] == 1 && !h.healthy && h.id == 0)
    && ProbesSinceAnswer(h.beats) <= MAXIMUM_RECOVERY_PROBES
    && (c.handshakeComplete ==>
          ProbesSinceAnswer(h.beats) + h.probes[Probe(h.recoveryAttempt, generation)] <= h.recoveryAttempt)
    && (c.initializeId != 0 ==> NoProbes(h, generation))
  }

  /** A pending heartbeat is the one that the client waits for. */
  ghost predicate Linked(h: Heartbeat, q: Requests) {
    forall id | id in q.pending :: q.pending[id].verb.RuntimeHeartbeat? ==> id == h.id
  }

  /** A relaunch that is still to come. */
  function Owed(r: Reconnect, p: Process): nat {
    (if r.state.Waiting? then 1 else 0)
    + (if r.terminationPending && r.terminationGeneration == p.generation && p.running then 1 else 0)
  }

  /** Every relaunch, made or still owed, has used up an attempt. */
  ghost predicate ReconnectOk(r: Reconnect, p: Process) {
    && LaunchesSinceReset(r.relaunches) + Owed(r, p) <= r.attempt <= |r.backoff| <= MAXIMUM_RECONNECT_ATTEMPTS
    && r.terminationGeneration <= p.generation
  }

  /** A generation that is being terminated has no handshake any more. */
  ghost predicate TerminationOk(r: Reconnect, p: Process, c: Session) {
    r.terminationPending && r.terminationGeneration == p.generation ==> !c.handshakeComplete && c.initializeId == 0
  }

  /** The invariant but for the link between the heartbeat and the table. */
  ghost predicate Core(s: ClientState) {
    && RequestsOk(s.requests, s.process.generation)
    && SessionOk(s.session, s.heartbeat)
    && HandshakeOk(s.session, s.requests, s.process.generation)
    && BeatOk(s.heartbeat, s.session, s.requests, s.process.generation)
    && ProbesOk(s.heartbeat, s.session, s.process.generation)
    && ReconnectOk(s.reconnect, s.process)
    && TerminationOk(s.reconnect, s.process, s.session)
  }

  ghost predicate Inv(s: ClientState) {
    Core(s) && Linked(s.heartbeat, s.requests)
  }

  // ---------------------------------------------------------------------
  // Tearing a connection down

  lemma SuppressKeeps(s: ClientState)
    requires Inv(s)
    ensures Inv(Suppress(s)) && Inv(Discard(Suppress(s)))
  {
  }

  lemma SetStateKeeps(s: ClientState, state: ReconnectState)
    requires Inv(s) && !state.Waiting?
    ensures Inv(SetState(s, state))
  {
  }

  /** Nothing but the table matters once the session is closed. */
  lemma ClearKeeps(s: ClientState)
    requires Inv(s)
    ensures Inv(Clear(s))
  {
    if s.heartbeat.id != 0 {
      DropKeeps(s.requests, s.heartbeat.id, s.process.generation);
    }
  }

  lemma FailPendingKeeps(s: ClientState, env: Environment)
    requires Fair(env) && Inv(s)
    requires s.session.initializeId == 0 || Interrupted(s.requests.wire, s.session.initializeId)
    ensures Inv(FailPending(s, env))
  {
    FailAllKeeps(s.requests, s.requests.pending.Keys, env, s.process.generation);
    var id := s.session.initializeId;
    assert id in s.requests.pending ==> PendingOk(s.requests, id, s.process.generation);
  }

  lemma FailOrdinaryKeeps(s: ClientState, env: Environment)
    requires Fair(env) && Inv(s)
    ensures Inv(FailOrdinary(s, env))
  {
    FailAllKeeps(s.requests, Ordinary(s.requests.pending), env, s.process.generation);
  }

  lemma SurrenderKeeps(s: ClientState, env: Environment)
    requires Fair(env) && Inv(s)
    ensures Inv(Surrender(s, env))
  {
    SuppressKeeps(s);
    ClearKeeps(Suppress(s));
    FailPendingKeeps(Clear(Suppress(s)), env);
    SetStateKeeps(FailPending(Clear(Suppress(s)), env), Exhausted);
  }

  lemma DiscardKeeps(s: ClientState)
    requires Inv(s)
    ensures Inv(Discard(s))
  {
  }

  lemma GiveUpKeeps(s: ClientState, env: Environment)
    requires Fair(env) && Inv(s)
    ensures Inv(GiveUp(s, env))
  {
    DiscardKeeps(s);
    SurrenderKeeps(Discard(s), env);
  }

  lemma RejectProtocolKeeps(s: ClientState, env: Environment)
    requires Fair(env) && Inv(s)
    ensures Inv(RejectProtocol(s, env))
  {
    SuppressKeeps(s);
    ClearKeeps(Discard(Suppress(s)));
    var cleared := Clear(Discard(Suppress(s)));
    SetStateKeeps(cleared, Exhausted);
    FailPendingKeeps(if s.reconnect.cycleActive then SetState(cleared, Exhausted) else cleared, env);
  }

  /** Retiring an open handshake; its session is closed at once. */
  lemma DropHandshakeKeeps(s: ClientState)
    requires Inv(s) && s.session.initializeId != 0
    ensures var id := s.session.initializeId;
            var dropped := Remove(Retire(s.requests, id), id);
            Inv(s.(requests := Report(dropped, Failed({id})), session := s.session.(initializeId := 0)))
  {
    var id := s.session.initializeId;
    if id in s.requests.pending {
      assert PendingOk(s.requests, id, s.process.generation);
    }
    DropKeeps(s.requests, id, s.process.generation);
    RetireKeeps(s.requests, id);
    LateReportKeeps(Remove(Retire(s.requests, id), id), {id}, s.process.generation);
  }

  lemma RejectInitializeKeeps(s: ClientState)
    requires Inv(s)
    ensures Inv(RejectInitialize(s))
  {
    var id := s.session.initializeId;
    if id == 0 {
      SuppressKeeps(s);
      ClearKeeps(Discard(Suppress(s)));
      var cleared := Clear(Discard(Suppress(s)));
      SetStateKeeps(cleared, Exhausted);
      LateReportKeeps(cleared.requests, {}, s.process.generation);
    } else {
      DropHandshakeKeeps(s);
      var dropped := Remove(Retire(s.requests, id), id);
      var s1 := s.(requests := Report(dropped, Failed({id})), session := s.session.(initializeId := 0));
      SuppressKeeps(s1);
      ClearKeeps(Discard(Suppress(s1)));
      SetStateKeeps(Clear(Discard(Suppress(s1))), Exhausted);
    }
  }
}
