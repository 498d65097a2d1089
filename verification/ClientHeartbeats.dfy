// Relaunches and heartbeats keep the invariant of the runtime client.

module ClientHeartbeats {
  import opened Capabilities
  import opened ClientState
  import opened ClientRequests
  import opened ClientInvariants
  import opened ClientSteps

  // ---------------------------------------------------------------------
  // Relaunches

  lemma BeginReconnectKeeps(s: ClientState, env: Environment)
    requires Fair(env) && Inv(s)
    ensures Inv(BeginReconnect(s, env))
  {
    var s1 := s.(reconnect := s.reconnect.(scheduledGeneration := 0));
    assert Inv(s1);
    SuppressKeeps(s1);
    SetStateKeeps(Suppress(s1), Exhausted);
    SetStateKeeps(s1, Restarting);
    if s.reconnect.state.Waiting? && !s.process.running {
      LaunchProcessKeeps(SetState(s1, Restarting), env, true);
    }
  }

  lemma UnhealthyKeeps(s: ClientState)
    requires Inv(s)
    ensures Inv(Unhealthy(s))
    ensures Inv(Discard(Unhealthy(s)))
  {
  }

  /** The attempt and the debt are taken together, and the session is closed. */
  lemma OwingKeeps(s: ClientState)
    requires Inv(s) && s.reconnect.attempt < |s.reconnect.backoff|
    ensures Inv(SetState(Clear(Owing(s)), Restarting))
  {
    ClearKeeps(s);
  }

  lemma TerminatingKeeps(s: ClientState, env: Environment)
    requires Fair(env) && Inv(s) && s.reconnect.attempt < |s.reconnect.backoff|
    ensures Inv(Terminating(s, env))
    ensures Inv(Settled(Terminating(s, env))) && Spare(Settled(Terminating(s, env)))
  {
    OwingKeeps(s);
    FailPendingKeeps(SetState(Clear(Owing(s)), Restarting), env);
    assert Terminating(s, env) == FailPending(SetState(Clear(Owing(s)), Restarting), env);
  }

  lemma AbandonAmbiguousKeeps(s: ClientState, env: Environment)
    requires Fair(env) && Inv(s)
    ensures Inv(AbandonAmbiguous(s, env))
  {
    var s1 := Discard(Unhealthy(s));
    UnhealthyKeeps(s);
    if !CanReconnect(s) {
      SurrenderKeeps(s1, env);
    } else {
      TerminatingKeeps(s1, env);
      LaunchProcessKeeps(Settled(Terminating(s1, env)), env, true);
    }
  }

  // ---------------------------------------------------------------------
  // Heartbeats

  ghost predicate NoCurrentProbe(s: ClientState) {
    forall p | p in s.heartbeat.probes :: p.generation < s.process.generation
  }

  /** A written heartbeat becomes the outstanding one. */
  lemma BeatStarts(s: ClientState, probe: bool)
    requires Inv(s) && Core(Issued(s, Plain(RuntimeHeartbeat)))
    requires s.session.handshakeComplete && s.heartbeat.negotiated && s.heartbeat.id == 0
    requires s.heartbeat.healthy || NoCurrentProbe(s)
    requires probe ==> ProbesSinceAnswer(s.heartbeat.beats) < s.heartbeat.recoveryAttempt
    ensures Inv(Beating(Issued(s, Plain(RuntimeHeartbeat)), s.requests.next + 1, probe))
  {
  }

  lemma BeatAdmitted(s: ClientState, platform: Platform)
    requires Inv(s) && s.heartbeat.id == 0
    ensures Admitted(s, platform, Plain(RuntimeHeartbeat)) ==> Core(Issued(s, Plain(RuntimeHeartbeat)))
  {
    if Admitted(s, platform, Plain(RuntimeHeartbeat)) {
      AdmittedKeeps(s, platform, Plain(RuntimeHeartbeat));
    }
  }

  lemma BeatRefusedKeeps(s: ClientState, env: Environment)
    requires Fair(env) && Inv(s)
    ensures Inv(GiveUp(FailOrdinary(Unhealthy(s), env), env))
  {
    UnhealthyKeeps(s);
    FailOrdinaryKeeps(Unhealthy(s), env);
    GiveUpKeeps(FailOrdinary(Unhealthy(s), env), env);
  }

  lemma BeatUnwrittenKeeps(s: ClientState, env: Environment)
    requires Fair(env) && Inv(s)
    ensures Inv(GiveUp(FailOrdinary(Unhealthy(Unwritten(s)), env), env))
  {
    UnwrittenKeeps(s);
    BeatRefusedKeeps(Unwritten(s), env);
  }

  /** The ways in which a heartbeat can go. */
  lemma BeatCases(s: ClientState, env: Environment, probe: bool)
    ensures BeatIf(s, env, probe, false)
         == if s.process.suppressed then s else GiveUp(FailOrdinary(Unhealthy(s), env), env)
    ensures BeatIf(s, env, probe, true)
         == match Write(s, env, s.requests.next + 1)
            case Written => Beating(Issued(s, Plain(RuntimeHeartbeat)), s.requests.next + 1, probe)
            case TooLarge =>
              if s.process.suppressed then Unwritten(s)
              else GiveUp(FailOrdinary(Unhealthy(Unwritten(s)), env), env)
            case Broken => GiveUp(Unwritten(s), env)
  {
  }

  lemma BeatIfKeeps(s: ClientState, env: Environment, probe: bool, admitted: bool)
    requires Fair(env) && Inv(s)
    requires admitted ==> Inv(Beating(Issued(s, Plain(RuntimeHeartbeat)), s.requests.next + 1, probe))
    ensures Inv(BeatIf(s, env, probe, admitted))
  {
    BeatCases(s, env, probe);
    if !admitted {
      BeatRefusedKeeps(s, env);
    } else {
      match Write(s, env, s.requests.next + 1) {
        case Written =>
        case TooLarge =>
          UnwrittenKeeps(s);
          BeatUnwrittenKeeps(s, env);
        case Broken =>
          BrokenKeeps(s, env);
      }
    }
  }

  lemma SendHeartbeatKeeps(s: ClientState, env: Environment, probe: bool)
    requires Fair(env) && Inv(s)
    requires probe ==> NoCurrentProbe(s) && ProbesSinceAnswer(s.heartbeat.beats) < s.heartbeat.recoveryAttempt
    ensures Inv(SendHeartbeat(s, env, probe))
  {
    if MayBeat(s, probe) {
      var counted := Counted(s);
      assert Inv(counted);
      var admitted := Admitted(counted, env.platform, Plain(RuntimeHeartbeat));
      BeatAdmitted(counted, env.platform);
      if admitted {
        BeatStarts(counted, probe);
      }
      BeatIfKeeps(counted, env, probe, admitted);
    }
  }

  lemma ScheduleProbeKeeps(s: ClientState)
    requires Inv(s) && NoCurrentProbe(s) && s.heartbeat.id == 0
    ensures Inv(ScheduleProbe(s))
  {
  }

  lemma UnbeatenKeeps(s: ClientState)
    requires Inv(s) && s.heartbeat.id != 0
    ensures Inv(Unbeaten(s)) && NoCurrentProbe(Unbeaten(s))
  {
    DropKeeps(s.requests, s.heartbeat.id, s.process.generation);
  }

  /** The same after the failure of that heartbeat has been reported. */
  lemma UnbeatenReportedKeeps(s: ClientState)
    requires Inv(s) && s.heartbeat.id in s.requests.pending && s.heartbeat.id != 0
    ensures Inv(Unbeaten(Reported(s, s.heartbeat.id))) && NoCurrentProbe(Unbeaten(s))
  {
    var id := s.heartbeat.id;
    ReportKeeps(s.requests, id, Delivered(id, s.process.generation), s.process.generation);
    DropKeeps(Deliver(s.requests, id, s.process.generation), id, s.process.generation);
    RetireKeeps(s.requests, id);
    assert Unbeaten(Reported(s, id)).requests
        == Remove(Retire(Deliver(s.requests, id, s.process.generation), id), id);
  }

  /** What follows once the outstanding heartbeat is gone. */
  lemma TimedOutKeeps(s: ClientState, env: Environment)
    requires Fair(env) && Inv(s) && s.heartbeat.id == 0 && NoCurrentProbe(s)
    ensures Inv(AbandonAmbiguous(s, env))
    ensures Inv(ScheduleProbe(FailOrdinary(Unhealthy(s), env)))
  {
    AbandonAmbiguousKeeps(s, env);
    UnhealthyKeeps(s);
    FailOrdinaryKeeps(Unhealthy(s), env);
    ScheduleProbeKeeps(FailOrdinary(Unhealthy(s), env));
  }

  lemma HeartbeatTimeoutKeeps(s: ClientState, env: Environment)
    requires Fair(env) && Inv(s)
    ensures Inv(HeartbeatTimeout(s, env))
  {
    if DeadlineCurrent(s) {
      UnbeatenKeeps(s);
      TimedOutKeeps(Unbeaten(s), env);
    }
  }

  lemma HeartbeatErrorKeeps(s: ClientState, env: Environment, id: nat)
    requires Fair(env) && Inv(s) && s.session.handshakeComplete
    requires id in s.requests.pending && s.requests.pending[id].verb.RuntimeHeartbeat?
    ensures Inv(HeartbeatTimeout(Reported(s, id), env))
  {
    assert PendingOk(s.requests, id, s.process.generation);
    assert id == s.heartbeat.id;
    UnbeatenKeeps(s);
    UnbeatenReportedKeeps(s);
    TimedOutKeeps(Unbeaten(Reported(s, id)), env);
  }
}
