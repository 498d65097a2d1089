// Whole runs of the runtime client: the invariant holds in every reachable state.

module ClientRuns {
  import opened Capabilities
  import opened ClientState
  import opened ClientRequests
  import opened ClientInvariants
  import opened ClientSteps
  import opened ClientHeartbeats
  import opened ClientMessages

  // ---------------------------------------------------------------------
  // Public calls

  lemma OnStartKeeps(s: ClientState, env: Environment)
    requires Fair(env) && Inv(s)
    ensures Inv(OnStart(s, env))
  {
    if !s.process.running && !s.reconnect.state.Waiting? && !s.reconnect.state.Restarting? {
      var s1 := s.(process := s.process.(suppressed := false, stopping := false),
                   reconnect := s.reconnect.(
                     timerActive := false, stabilityGeneration := 0, attempt := 0, cycleActive := false, state := Idle,
                     relaunches := Reset(s.reconnect.relaunches)));
      assert Inv(s1);
      LaunchProcessKeeps(s1, env, false);
    }
  }

  lemma StoppingKeeps(s: ClientState)
    requires Inv(s)
    ensures Inv(Stopping(s))
  {
  }

  lemma OnStopKeeps(s: ClientState, env: Environment)
    requires Fair(env) && Inv(s)
    ensures Inv(OnStop(s, env))
  {
    StoppingKeeps(s);
    SendRequestKeeps(Stopping(s), env, Plain(Shutdown), true);
  }

  lemma PolicyKeeps(s: ClientState, disabled: bool)
    requires Inv(s)
    ensures Inv(Policy(s, disabled))
  {
  }

  lemma RestartForPolicyKeeps(s: ClientState, env: Environment)
    requires Fair(env) && Inv(s)
    ensures Inv(RestartForPolicy(s, env))
  {
    var stopping := SetState(s.(process := s.process.(policyRestart := true, stopping := true, suppressed := true)), Idle);
    PolicyChangeKeeps(s.requests, s.session.initializeId, s.process.generation);
    FailPendingKeeps(stopping.(requests := Report(stopping.requests, PolicyChanged(stopping.session.initializeId))), env);
  }

  lemma OnSetEmergencyKeeps(s: ClientState, env: Environment, disabled: bool)
    requires Fair(env) && Inv(s)
    ensures Inv(OnSetEmergency(s, env, disabled))
  {
    PolicyKeeps(s, disabled);
    if s.process.emergency != disabled && s.process.running && s.process.startedEmergency != disabled {
      RestartForPolicyKeeps(Policy(s, disabled), env);
      SendRequestKeeps(RestartForPolicy(Policy(s, disabled), env), env, Plain(Shutdown), true);
    }
  }

  lemma RecoveredKeeps(s: ClientState)
    requires Inv(s)
    ensures Inv(Recovered(s)) && Inv(Unrecovered(s))
  {
  }

  lemma OnCompleteRecoveryKeeps(s: ClientState, env: Environment, generation: nat, success: bool)
    requires Fair(env) && Inv(s)
    ensures Inv(OnCompleteRecovery(s, env, generation, success))
  {
    RecoveredKeeps(s);
    StartupQueriesKeeps(Recovered(s), env);
  }

  // ---------------------------------------------------------------------
  // Timers and the process

  lemma OnStartupTimerKeeps(s: ClientState, env: Environment)
    requires Fair(env) && Inv(s)
    ensures Inv(OnStartupTimer(s, env))
  {
    GiveUpKeeps(s, env);
  }

  /** A stable connection resets the counter; no relaunch can be owed then. */
  lemma OnStabilityTimerKeeps(s: ClientState)
    requires Inv(s)
    ensures Inv(OnStabilityTimer(s))
  {
  }

  lemma OnProbeTimerKeeps(s: ClientState, env: Environment, probe: Probe)
    requires Fair(env) && Inv(s) && probe in s.heartbeat.probes
    ensures Inv(OnProbeTimer(s, env, probe))
  {
    var s1 := s.(heartbeat := s.heartbeat.(probes := s.heartbeat.probes - multiset{probe}));
    assert forall p | p in s1.heartbeat.probes :: p in s.heartbeat.probes;
    assert Inv(s1);
    if CanAct(s1, probe) {
      assert NoCurrentProbe(s1);
      SendHeartbeatKeeps(s1, env, true);
    }
  }

  lemma DownKeeps(s: ClientState)
    requires Inv(s) && s.process.running
    ensures Inv(Down(s))
    ensures Inv(Settled(Down(s)))
    ensures s.reconnect.terminationPending && s.reconnect.terminationGeneration == s.process.generation
            ==> Spare(Settled(Down(s)))
  {
  }

  lemma DownForPolicyKeeps(s: ClientState)
    requires Inv(s)
    ensures Inv(DownForPolicy(s))
  {
    ClearKeeps(s);
    var cleared := Clear(s);
    SetStateKeeps(cleared.(process := cleared.process.(policyRestart := false, suppressed := false)), Idle);
  }

  lemma DownUnplannedKeeps(s: ClientState, env: Environment, expected: bool)
    requires Fair(env) && Inv(s)
    ensures Inv(DownUnplanned(s, env, expected))
  {
    ClearKeeps(s);
    FailPendingKeeps(Clear(s), env);
    SetStateKeeps(FailPending(Clear(s), env), Idle);
    ScheduleReconnectKeeps(FailPending(Clear(s), env));
  }

  lemma OnFinishedKeeps(s: ClientState, env: Environment)
    requires Fair(env) && Inv(s) && s.process.running
    ensures Inv(OnFinished(s, env))
  {
    var down := Down(s);
    DownKeeps(s);
    if down.process.policyRestart {
      DownForPolicyKeeps(down);
    } else if down.process.terminationPending {
      ClearKeeps(down.(process := down.process.(terminationPending := false)));
    } else if down.reconnect.terminationPending && down.reconnect.terminationGeneration == down.process.generation {
      LaunchProcessKeeps(Settled(down), env, true);
    } else {
      DownUnplannedKeeps(down, env, s.process.stopping);
    }
  }

  // ---------------------------------------------------------------------
  // Runs

  lemma TimerStepKeeps(s: ClientState, env: Environment, event: Event)
    requires Fair(env) && Inv(s) && Enabled(s, event)
    requires event.StartupTimer? || event.HeartbeatTimer? || event.DeadlineTimer? || event.ReconnectTimer?
             || event.StabilityTimer? || event.ProbeTimer?
    ensures Inv(Step(s, env, event))
  {
    match event {
      case StartupTimer => OnStartupTimerKeeps(s, env);
      case HeartbeatTimer => SendHeartbeatKeeps(s, env, false);
      case DeadlineTimer => HeartbeatTimeoutKeeps(s, env);
      case ReconnectTimer =>
        var fired := s.(reconnect := s.reconnect.(timerActive := false));
        assert Inv(fired);
        BeginReconnectKeeps(fired, env);
      case StabilityTimer => OnStabilityTimerKeeps(s);
      case ProbeTimer(probe) => OnProbeTimerKeeps(s, env, probe);
    }
  }

  lemma ProcessStepKeeps(s: ClientState, env: Environment, event: Event)
    requires Fair(env) && Inv(s) && Enabled(s, event)
    requires event.Read? || event.ErrorOccurred? || event.FailedToStart? || event.Finished?
    ensures Inv(Step(s, env, event))
  {
    match event {
      case Read(frames) => ProcessFramesKeeps(s, env, frames);
      case ErrorOccurred(crashed) => OnErrorKeeps(s, env, crashed);
      case FailedToStart =>
        var failed := s.(process := s.process.(running := false));
        assert Inv(failed);
        OnErrorKeeps(failed, env, false);
      case Finished => OnFinishedKeeps(s, env);
    }
  }

  lemma CallStepKeeps(s: ClientState, env: Environment, event: Event)
    requires Fair(env) && Inv(s) && Enabled(s, event)
    requires event.Start? || event.Stop? || event.SetEmergencyDisabled? || event.Ask? || event.Abandon?
             || event.CompleteRecovery?
    ensures Inv(Step(s, env, event))
  {
    match event {
      case Start => OnStartKeeps(s, env);
      case Stop => OnStopKeeps(s, env);
      case SetEmergencyDisabled(disabled) => OnSetEmergencyKeeps(s, env, disabled);
      case Ask(call, identified) => SendRequestKeeps(s, env, call, identified || !IsSubscription(call.verb));
      case Abandon => AbandonAmbiguousKeeps(s, env);
      case CompleteRecovery(generation, success) => OnCompleteRecoveryKeeps(s, env, generation, success);
    }
  }

  /** Every step keeps the invariant, whatever the environment answers. */
  lemma StepKeeps(s: ClientState, env: Environment, event: Event)
    requires Fair(env) && Inv(s)
    ensures Inv(Step(s, env, event))
  {
    if Enabled(s, event) {
      match event {
        case StartupTimer => TimerStepKeeps(s, env, event);
        case HeartbeatTimer => TimerStepKeeps(s, env, event);
        case DeadlineTimer => TimerStepKeeps(s, env, event);
        case ReconnectTimer => TimerStepKeeps(s, env, event);
        case StabilityTimer => TimerStepKeeps(s, env, event);
        case ProbeTimer(_) => TimerStepKeeps(s, env, event);
        case Read(_) => ProcessStepKeeps(s, env, event);
        case ErrorOccurred(_) => ProcessStepKeeps(s, env, event);
        case FailedToStart => ProcessStepKeeps(s, env, event);
        case Finished => ProcessStepKeeps(s, env, event);
        case _ => CallStepKeeps(s, env, event);
      }
    }
  }

  ghost predicate FairRun(run: seq<Occurrence>) {
    forall i | 0 <= i < |run| :: Fair(run[i].env)
  }

  lemma InitialOk(backoff: seq<int>)
    ensures Inv(Initial(backoff))
  {
  }

  lemma {:induction false} RunKeeps(s: ClientState, run: seq<Occurrence>)
    requires Inv(s) && FairRun(run)
    ensures Inv(Run(s, run))
    decreases |run|
  {
    if run != [] {
      StepKeeps(s, run[0].env, run[0].event);
      RunKeeps(Step(s, run[0].env, run[0].event), run[1..]);
    }
  }
}
