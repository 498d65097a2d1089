// Exactly which requests the runtime client writes, and under which capabilities, in every run.

module ClientAdmission {
  import opened Options
  import opened Capabilities
  import opened CapabilityUses
  import opened ClientState
  import opened ClientRequests
  import opened ClientRuns
  import opened ClientReports
  import opened ClientGuarantees
  import opened ClientProgress
  import opened ClientExchanges

  // ---------------------------------------------------------------------
  // One request

  /** What a connection must offer for a call to be let through. */
  ghost predicate LetThrough(s: ClientState, platform: Platform, call: Call) {
    && s.process.running && s.session.handshakeComplete
    && (s.process.emergency ==> !Suspended(call.verb))
    && (s.heartbeat.negotiated && !s.heartbeat.healthy ==> call.verb in CONTROLS)
    && (s.session.recoveryPending ==> Restores(call.verb))
    && forall capability | capability in Required(call, platform) :: capability in s.session.capabilities
  }

  /** A subscription needs an identity; a call without one takes an id and goes nowhere. */
  predicate Lacking(call: Call, identified: bool) {
    !identified && call.verb in {TimelineSubscribe, TimelineSubscriptionSync, TimelineSubscriptionSnapshot,
                                 TimelineSubscriptionActivate}
  }

  /** The request is written: it is pending in the current generation, and nothing else has changed. */
  predicate Writes(s: ClientState, call: Call, next: ClientState) {
    var id := s.requests.next + 1;
    next == s.(requests := s.requests.(
                 next := id,
                 pending := s.requests.pending[id := Pending(call.verb, s.process.generation)],
                 wire := After(s.requests.wire, Sent(id, call, s.process.generation, CurrentPhase(s)))))
  }

  lemma LetThroughIsAdmitted(s: ClientState, platform: Platform, call: Call)
    requires !call.verb.Initialize?
    ensures LetThrough(s, platform, call) <==> Admitted(s, platform, call)
  {
    EmergencySuspends(call.verb);
    ReconnectRestores(call.verb);
    ControlsAre(call.verb);
  }

  /**
   * A request is refused without a trace if and only if the connection does not let it through;
   * otherwise it is written if the frame can be, and reported as failed if not.
   */
  lemma AskedExactly(s: ClientState, env: Environment, call: Call, identified: bool)
    requires !call.verb.Initialize? && !call.verb.RuntimeHeartbeat? && s.requests.next + 1 !in s.requests.pending
    requires s.session.handshakeComplete ==> s.session.frameLimit > 0
    ensures var id, next := s.requests.next + 1, Step(s, env, Ask(call, identified));
            if !LetThrough(s, env.platform, call) then next == s
            else if Lacking(call, identified) then next == s.(requests := s.requests.(next := id))
            else match env.write(id)
              case Written => Writes(s, call, next)
              case TooLarge =>
                next == s.(requests := s.requests.(next := id, wire := After(s.requests.wire, Failed({id}))))
              case Broken =>
                && next.session == CLOSED_SESSION && next.process.suppressed && next.process.discardOutput
                && next.reconnect.state.Exhausted? && next.requests.pending == map[]
                && Reports(next, id) == Reports(s, id) + 1
  {
    LetThroughIsAdmitted(s, env.platform, call);
    var id := s.requests.next + 1;
    assert s.requests.pending - {id} == s.requests.pending;
    if Admitted(s, env.platform, call) && env.write(id).Broken? {
      BrokenCloses(s, env, id);
    }
  }

  lemma BrokenCloses(s: ClientState, env: Environment, id: nat)
    requires id == s.requests.next + 1 && id !in s.requests.pending
    ensures var next := GiveUp(Unwritten(s), env);
            && next.session == CLOSED_SESSION && next.process.suppressed && next.process.discardOutput
            && next.reconnect.state.Exhausted? && next.requests.pending == map[]
            && Reports(next, id) == Reports(s, id) + 1
  {
    var torn := Suppress(Discard(Unwritten(s)));
    assert Reports(torn, id) == Reports(s, id) + 1;
    ClearedPending(torn);
    FailedAll(Clear(torn), env, id);
  }

  // ---------------------------------------------------------------------
  // Every request ever written

  lemma SentIsCovered(backoff: seq<int>, run: seq<Occurrence>, id: nat, call: Call, generation: nat, phase: Phase)
    requires FairRun(run) && !call.verb.Initialize?
    requires Occurs(Run(Initial(backoff), run).requests.wire, Sent(id, call, generation, phase))
    ensures Covers(phase.capabilities, call)
  {
    WrittenMethods(backoff, run, id, call, generation, phase);
  }

  /**
   * In every run, each request that was written had all its capabilities negotiated at that moment:
   * the one that its method is in the table with, and those that its parameters call for.
   */
  lemma SentUnderItsCapabilities(
      backoff: seq<int>, run: seq<Occurrence>, id: nat, call: Call, generation: nat, phase: Phase, capability: Capability)
    requires FairRun(run) && !call.verb.Initialize?
    requires Occurs(Run(Initial(backoff), run).requests.wire, Sent(id, call, generation, phase))
    requires IsUse(call.verb, capability) || forall platform :: NeedsBesides(call, platform, capability)
    requires capability != UnknownMethod
    ensures capability in phase.capabilities
  {
    SentIsCovered(backoff, run, id, call, generation, phase);
    var platform :| Required(call, platform) <= phase.capabilities;
    NeededExactly(call, platform, capability);
  }

  /** A saved text has its own capability, and so has a read one: neither stands for the other. */
  lemma SavesNeedTheirCapability(backoff: seq<int>, run: seq<Occurrence>, id: nat, call: Call, generation: nat, phase: Phase)
    requires FairRun(run) && call.verb.WorkspaceSaveUserText?
    requires Occurs(Run(Initial(backoff), run).requests.wire, Sent(id, call, generation, phase))
    ensures Capability.WorkspaceSaveUserText in phase.capabilities
  {
    SavingIsUse(call.verb);
    SentUnderItsCapabilities(backoff, run, id, call, generation, phase, Capability.WorkspaceSaveUserText);
  }

  /** No method without capabilities of its own is ever written. */
  lemma UnknownIsNeverSent(backoff: seq<int>, run: seq<Occurrence>, id: nat, call: Call, generation: nat, phase: Phase)
    requires FairRun(run) && UnknownMethod !in phase.capabilities
    requires Occurs(Run(Initial(backoff), run).requests.wire, Sent(id, call, generation, phase))
    ensures !call.verb.Other? && !call.verb.RuntimeRecoveryExport? && !call.verb.TerminalCloseUser?
  {
    if !call.verb.Initialize? {
      SentIsCovered(backoff, run, id, call, generation, phase);
      if call.verb.Other? {
        UnknownHasNoEntry(call.verb);
      } else if call.verb.RuntimeRecoveryExport? || call.verb.TerminalCloseUser? {
        RefusedHaveNoEntry(call.verb);
      }
    }
  }
}
