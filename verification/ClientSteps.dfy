// Every operation of the runtime client keeps the invariant.

module ClientSteps {
  import opened Capabilities
  import opened ClientState
  import opened ClientRequests
  import opened ClientInvariants

  // ---------------------------------------------------------------------
  // Requests

  lemma AdmissionFollowsPhase(s: ClientState, platform: Platform, call: Call)
    requires SessionOk(s.session, s.heartbeat) && Admitted(s, platform, call)
    requires call.verb.Initialize? ==> !s.session.handshakeComplete
    ensures PhaseAllows(CurrentPhase(s), call)
  {
    RecoveryAdmits(call, platform);
    UnavailableAdmits(call, platform);
  }

  /** A written request; a heartbeat is linked by its caller. */
  lemma IssuedKeeps(s: ClientState, call: Call)
    requires Inv(s) && PhaseAllows(CurrentPhase(s), call)
    requires call.verb.Initialize? ==> s.session.initializeId == 0
    ensures call.verb.RuntimeHeartbeat? && s.heartbeat.id == 0 ==> Core(Issued(s, call))
    ensures !call.verb.RuntimeHeartbeat? ==> Inv(Issued(s, call))
  {
    IssueKeeps(s.requests, call, s.process.generation, CurrentPhase(s));
  }

  lemma UnwrittenKeeps(s: ClientState)
    requires Inv(s)
    ensures Inv(Taken(s)) && Inv(Unwritten(s))
  {
    RefusalKeeps(s.requests, s.process.generation);
  }

  lemma AdmittedKeeps(s: ClientState, platform: Platform, call: Call)
    requires Inv(s) && Admitted(s, platform, call)
    requires call.verb.Initialize? ==> !s.session.handshakeComplete && s.session.initializeId == 0
    ensures call.verb.RuntimeHeartbeat? && s.heartbeat.id == 0 ==> Core(Issued(s, call))
    ensures !call.verb.RuntimeHeartbeat? ==> Inv(Issued(s, call))
  {
    AdmissionFollowsPhase(s, platform, call);
    IssuedKeeps(s, call);
  }

  lemma BrokenKeeps(s: ClientState, env: Environment)
    requires Fair(env) && Inv(s)
    ensures Inv(GiveUp(Unwritten(s), env))
  {
    UnwrittenKeeps(s);
    GiveUpKeeps(Unwritten(s), env);
  }

  lemma SendIfKeeps(s: ClientState, env: Environment, call: Call, admitted: bool, identified: bool)
    requires Fair(env) && Inv(s)
    requires admitted ==> Inv(Issued(s, call))
    ensures Inv(SendIf(s, env, call, admitted, identified).0)
  {
    var outcome := Write(s, env, s.requests.next + 1);
    var next := SendIf(s, env, call, admitted, identified).0;
    if !admitted {
      assert next == s;
    } else if !identified {
      UnwrittenKeeps(s);
      assert next == Taken(s);
    } else if outcome.Written? {
      assert next == Issued(s, call);
    } else if outcome.TooLarge? {
      UnwrittenKeeps(s);
      assert next == Unwritten(s);
    } else {
      BrokenKeeps(s, env);
      assert next == GiveUp(Unwritten(s), env);
    }
  }

  lemma SendRequestKeeps(s: ClientState, env: Environment, call: Call, identified: bool)
    requires Fair(env) && Inv(s) && !call.verb.Initialize? && !call.verb.RuntimeHeartbeat?
    ensures Inv(SendRequest(s, env, call, identified).0)
  {
    if Admitted(s, env.platform, call) {
      AdmittedKeeps(s, env.platform, call);
    }
    SendIfKeeps(s, env, call, Admitted(s, env.platform, call), identified);
  }

  // ---------------------------------------------------------------------
  // Reconnecting

  lemma ScheduledKeeps(s: ClientState)
    requires Inv(s) && !s.process.running
    ensures Inv(Scheduled(s))
  {
  }

  lemma ScheduleReconnectKeeps(s: ClientState)
    requires Inv(s)
    ensures Inv(ScheduleReconnect(s))
  {
    if s.process.running {
      SuppressKeeps(s);
      SetStateKeeps(Suppress(s), Exhausted);
    } else {
      ScheduledKeeps(s);
    }
  }

  lemma HandleRetryableKeeps(s: ClientState, env: Environment)
    requires Fair(env) && Inv(s)
    ensures Inv(HandleRetryable(s, env))
  {
    if s.process.running {
      GiveUpKeeps(s, env);
    } else {
      ScheduleReconnectKeeps(s);
      ClearKeeps(ScheduleReconnect(s));
      FailPendingKeeps(Clear(ScheduleReconnect(s)), env);
    }
  }

  lemma OnErrorKeeps(s: ClientState, env: Environment, crashed: bool)
    requires Fair(env) && Inv(s)
    ensures Inv(OnError(s, env, crashed))
  {
    if s.process.running {
      SurrenderKeeps(s, env);
    } else {
      HandleRetryableKeeps(s, env);
    }
  }

  /** A generation that nothing has happened in yet. */
  ghost predicate Fresh(s: ClientState) {
    && !s.session.handshakeComplete && s.session.initializeId == 0 && s.requests.pending == map[]
    && s.reconnect.terminationGeneration < s.process.generation
    && NoProbes(s.heartbeat, s.process.generation)
  }

  lemma GenerationKeeps(s: ClientState)
    requires Inv(s)
    ensures Inv(Generation(s)) && Fresh(Generation(s))
  {
    ClearKeeps(s);
    NewGenerationKeeps(Clear(s).requests, s.process.generation);
  }

  /** The initialize request that opens the handshake. */
  lemma HandshakeOpens(s: ClientState)
    requires Inv(s) && Fresh(s) && Inv(Issued(s, Plain(Initialize)))
    ensures var s1 := Issued(s, Plain(Initialize));
            Inv(s1.(session := s1.session.(initializeId := s.requests.next + 1, initializeGeneration := s.process.generation)))
  {
  }

  lemma HandshakeRefusedKeeps(s: ClientState, generation: nat)
    requires Inv(s) && s.session.initializeId == 0
    ensures Inv(s.(session := s.session.(initializeId := 0, initializeGeneration := generation)))
  {
  }

  lemma SendInitializeKeeps(s: ClientState, env: Environment)
    requires Fair(env) && Inv(s) && Fresh(s)
    ensures Inv(SendInitialize(s, env))
  {
    var call := Plain(Initialize);
    if s.process.running {
      if Admitted(s, env.platform, call) {
        AdmittedKeeps(s, env.platform, call);
      }
      var (s1, id) := SendIf(s, env, call, Admitted(s, env.platform, call), true);
      SendIfKeeps(s, env, call, Admitted(s, env.platform, call), true);
      if id == 0 {
        HandshakeRefusedKeeps(s1, s1.process.generation);
        HandleRetryableKeeps(s1.(session := s1.session.(initializeId := 0, initializeGeneration := s1.process.generation)), env);
      } else {
        HandshakeOpens(s);
      }
    }
  }

  lemma RunningKeeps(s: ClientState, running: bool)
    requires Inv(s) && Fresh(s)
    ensures Inv(Running(s, running)) && Fresh(Running(s, running))
  {
  }

  lemma NotStartedKeeps(s: ClientState, env: Environment)
    requires Fair(env) && Inv(s)
    ensures Inv(NotStarted(s, env))
  {
    HandleRetryableKeeps(s, env);
  }

  lemma LaunchedKeeps(s: ClientState, env: Environment)
    requires Fair(env) && Inv(s) && Fresh(s)
    ensures Inv(Launched(s, env))
  {
    RunningKeeps(s, false);
    RunningKeeps(s, true);
    match env.launch {
      case StartFailed =>
        OnErrorKeeps(Running(s, false), env, false);
        NotStartedKeeps(OnError(Running(s, false), env, false), env);
      case Started(prelude) =>
        var up := Running(s, true);
        var s1 := up.(session := up.session.(startupGeneration := up.process.generation));
        assert Inv(s1) && Fresh(s1);
        if prelude {
          SendInitializeKeeps(s1, env);
        } else {
          HandleRetryableKeeps(s1, env);
        }
      case _ =>
        NotStartedKeeps(Running(s, true), env);
    }
  }

  lemma UnlaunchableKeeps(s: ClientState, exhausted: bool)
    requires Inv(s)
    ensures Inv(Unlaunchable(s, exhausted))
  {
  }

  /** An attempt that no launch has used yet. */
  ghost predicate Spare(s: ClientState) {
    LaunchesSinceReset(s.reconnect.relaunches) + Owed(s.reconnect, s.process) < s.reconnect.attempt
  }

  /** A launch on behalf of a reconnect uses up the spare attempt. */
  lemma LaunchProcessKeeps(s: ClientState, env: Environment, reconnect: bool)
    requires Fair(env) && Inv(s) && (reconnect ==> Spare(s))
    ensures Inv(LaunchProcess(s, env, reconnect))
  {
    var s1 := if reconnect then s.(reconnect := s.reconnect.(relaunches := Relaunched(s.reconnect.relaunches))) else s;
    assert Inv(s1);
    UnlaunchableKeeps(s1, reconnect);
    GenerationKeeps(s1);
    UnlaunchableKeeps(Generation(s1), true);
    LaunchedKeeps(Generation(s1), env);
  }
}
