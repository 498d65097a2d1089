// Every incoming message keeps the invariant of the runtime client.

module ClientMessages {
  import opened Capabilities
  import opened ClientState
  import opened ClientRequests
  import opened ClientInvariants
  import opened ClientSteps
  import opened ClientHeartbeats

  lemma RejectFrameKeeps(s: ClientState, env: Environment)
    requires Fair(env) && Inv(s)
    ensures Inv(RejectFrame(s, env))
  {
    if Initializing(s) {
      RejectInitializeKeeps(s);
    } else {
      RejectProtocolKeeps(s, env);
    }
  }

  // ---------------------------------------------------------------------
  // Ordinary responses

  lemma AnswerKeeps(s: ClientState, id: nat)
    requires Inv(s) && s.session.handshakeComplete && id in s.requests.pending
    ensures Inv(Answer(s, id))
  {
    ReportKeeps(s.requests, id, Delivered(id, s.process.generation), s.process.generation);
  }

  lemma ProcessErrorKeeps(s: ClientState, env: Environment, id: nat, body: Body)
    requires Fair(env) && Inv(s) && s.session.handshakeComplete && id in s.requests.pending && body.ErrorBody?
    ensures Inv(ProcessError(s, env, id, s.requests.pending[id].verb, body))
  {
    RejectProtocolKeeps(s, env);
    AnswerKeeps(s, id);
    if s.requests.pending[id].verb.RuntimeHeartbeat? {
      HeartbeatErrorKeeps(s, env, id);
    }
  }

  /** The answer to the outstanding heartbeat. */
  lemma BeatAnsweredKeeps(s: ClientState, id: nat)
    requires Inv(s) && s.session.handshakeComplete && id in s.requests.pending && id == s.heartbeat.id
    ensures Inv(Answer(s, id).(heartbeat := Unanswered(s.heartbeat).(
                  healthy := true, recoveryAttempt := 0, beats := Answered(s.heartbeat.beats))))
  {
    AnswerKeeps(s, id);
    assert PendingOk(s.requests, id, s.process.generation);
    assert s.heartbeat.probes[Probe(0, s.process.generation)] == 0;
  }

  lemma ProcessResultKeeps(s: ClientState, env: Environment, id: nat, body: Body)
    requires Fair(env) && Inv(s) && s.session.handshakeComplete && id in s.requests.pending && body.ResultBody?
    ensures Inv(ProcessResult(s, env, id, s.requests.pending[id].verb, body))
  {
    RejectProtocolKeeps(s, env);
    AnswerKeeps(s, id);
    if id == s.heartbeat.id {
      BeatAnsweredKeeps(s, id);
    }
  }

  // ---------------------------------------------------------------------
  // The end of the handshake

  lemma QueryKeeps(s: ClientState, env: Environment, capability: Capability, verb: Method)
    requires Fair(env) && Inv(s) && !verb.Initialize? && !verb.RuntimeHeartbeat?
    ensures Inv(Query(s, env, capability, verb))
  {
    SendRequestKeeps(s, env, Plain(verb), true);
  }

  lemma StartupQueriesKeeps(s: ClientState, env: Environment)
    requires Fair(env) && Inv(s)
    ensures Inv(StartupQueries(s, env))
  {
    QueryKeeps(s, env, Capability.RuntimeHealth, Method.RuntimeHealth);
    var s1 := Query(s, env, Capability.RuntimeHealth, Method.RuntimeHealth);
    QueryKeeps(s1, env, Capability.RuntimeDegradations, Method.RuntimeDegradations);
    var s2 := Query(s1, env, Capability.RuntimeDegradations, Method.RuntimeDegradations);
    QueryKeeps(s2, env, ModelCatalogReadOnly, ModelCatalog);
    var s3 := Query(s2, env, ModelCatalogReadOnly, ModelCatalog);
    QueryKeeps(s3, env, ModelCatalogCacheReadOnly, ModelCatalogCache);
    var s4 := Query(s3, env, ModelCatalogCacheReadOnly, ModelCatalogCache);
    QueryKeeps(s4, env, ModelCatalogRefreshStatusReadOnly, ModelCatalogRefreshStatus);
    var s5 := Query(s4, env, ModelCatalogRefreshStatusReadOnly, ModelCatalogRefreshStatus);
    QueryKeeps(s5, env, ModelProfileReadOnly, ModelProfileList);
    var s6 := Query(s5, env, ModelProfileReadOnly, ModelProfileList);
    QueryKeeps(s6, env, Capability.RuntimeRecoveryStatus, Method.RuntimeRecoveryStatus);
    QueryKeeps(s6, env, Capability.RuntimeProjectionRecoveryStatus, Method.RuntimeProjectionRecoveryStatus);
  }

  /** The table once the initialize request has been answered. */
  lemma HandshakeAnswered(s: ClientState)
    requires Inv(s) && s.session.initializeId in s.requests.pending
    ensures var id := s.session.initializeId;
            RequestsOk(Deliver(Retire(s.requests, id), id, s.process.generation), s.process.generation)
  {
    var id := s.session.initializeId;
    assert PendingOk(s.requests, id, s.process.generation);
    ReportKeeps(s.requests, id, Delivered(id, s.process.generation), s.process.generation);
    DropKeeps(Deliver(s.requests, id, s.process.generation), id, s.process.generation);
    RetireKeeps(s.requests, id);
    assert Deliver(Retire(s.requests, id), id, s.process.generation)
        == Remove(Retire(Deliver(s.requests, id, s.process.generation), id), id);
  }

  lemma ModeOfBackend(hello: InitializeResult)
    requires ValidInitialize(hello)
    ensures var capabilities := Stable(hello);
            && hello.frameLimit == MAXIMUM_FRAME_BYTES
            && (hello.status.ReadOnlyRecovery? ==> capabilities <= WHEN_RECOVERING)
            && (!hello.status.Ready? && !hello.status.ReadOnlyRecovery? ==> capabilities <= WHEN_UNAVAILABLE)
  {
  }

  lemma NegotiatedKeeps(s: ClientState, hello: InitializeResult)
    requires Inv(s) && s.session.initializeId in s.requests.pending && s.session.initializeId != 0
    requires !s.session.handshakeComplete && ValidInitialize(hello)
    ensures Inv(Negotiated(s, hello))
  {
    HandshakeAnswered(s);
    ModeOfBackend(hello);
  }

  /** A reconnect cycle outlives the first heartbeat only together with the session. */
  lemma CycleKeepsSession(s: ClientState, env: Environment)
    ensures var s1 := SendHeartbeat(s, env, false);
            s1.reconnect.cycleActive ==> s1.session == s.session
  {
  }

  lemma RecoveryPendingKeeps(s: ClientState)
    requires Inv(s) && s.session.handshakeComplete
    ensures Inv(s.(session := s.session.(recoveryPending := true)))
  {
  }

  lemma AcceptInitializeKeeps(s: ClientState, env: Environment, hello: InitializeResult)
    requires Fair(env) && Inv(s) && s.session.initializeId in s.requests.pending && s.session.initializeId != 0
    requires !s.session.handshakeComplete && ValidInitialize(hello)
    ensures Inv(AcceptInitialize(s, env, hello))
  {
    NegotiatedKeeps(s, hello);
    var s1 := Negotiated(s, hello);
    if !env.notifies {
      RejectProtocolKeeps(s1, env);
    } else {
      SendHeartbeatKeeps(s1, env, false);
      CycleKeepsSession(s1, env);
      var s2 := if s1.heartbeat.negotiated then SendHeartbeat(s1, env, false) else s1;
      if s2.reconnect.cycleActive {
        RecoveryPendingKeeps(s2);
      } else {
        StartupQueriesKeeps(s2, env);
      }
    }
  }

  // ---------------------------------------------------------------------
  // Frames

  lemma ProcessInitializeKeeps(s: ClientState, env: Environment, body: Body)
    requires Fair(env) && Inv(s) && s.session.initializeId in s.requests.pending && s.session.initializeId != 0
    requires !s.session.handshakeComplete
    ensures Inv(ProcessInitialize(s, env, body))
  {
    if body.ResultBody? && body.typed && ValidInitialize(body.hello) {
      AcceptInitializeKeeps(s, env, body.hello);
    } else {
      RejectInitializeKeeps(s);
    }
  }

  lemma DispatchLateKeeps(s: ClientState, env: Environment, id: nat, body: Body)
    requires Fair(env) && Inv(s) && id in s.requests.pending && s.session.handshakeComplete
    ensures Inv(DispatchLate(s, env, id, s.requests.pending[id].verb, body))
  {
    if s.requests.pending[id].verb.Initialize? || body.Neither? {
      RejectProtocolKeeps(s, env);
    } else if body.ErrorBody? {
      ProcessErrorKeeps(s, env, id, body);
    } else {
      ProcessResultKeeps(s, env, id, body);
    }
  }

  lemma DispatchEarlyKeeps(s: ClientState, env: Environment, id: nat, body: Body)
    requires Fair(env) && Inv(s) && id in s.requests.pending && id != 0 && !s.session.handshakeComplete
    ensures Inv(DispatchEarly(s, env, id, s.requests.pending[id].verb, body))
  {
    if || id != s.session.initializeId || !s.requests.pending[id].verb.Initialize?
       || s.session.initializeGeneration != s.process.generation {
      RejectInitializeKeeps(s);
    } else if body.Neither? {
      RejectFrameKeeps(s, env);
    } else {
      ProcessInitializeKeeps(s, env, body);
    }
  }

  lemma ProcessResponseKeeps(s: ClientState, env: Environment, id: nat, decoding: Decoding, body: Body)
    requires Fair(env) && Inv(s)
    ensures Inv(ProcessResponse(s, env, id, decoding, body))
  {
    if decoding.Rejected? {
      RejectFrameKeeps(s, env);
    } else if !decoding.Unmatched? && PendingCurrent(s, id) {
      if s.session.handshakeComplete {
        DispatchLateKeeps(s, env, id, body);
      } else {
        DispatchEarlyKeeps(s, env, id, body);
      }
    }
  }

  lemma ProcessFrameKeeps(s: ClientState, env: Environment, frame: Frame)
    requires Fair(env) && Inv(s)
    ensures Inv(ProcessFrame(s, env, frame))
  {
    RejectFrameKeeps(s, env);
    if frame.Response? {
      ProcessResponseKeeps(s, env, frame.id, frame.decoding, frame.body);
    }
  }

  lemma {:induction false} ProcessFramesKeeps(s: ClientState, env: Environment, frames: seq<Frame>)
    requires Fair(env) && Inv(s)
    ensures Inv(ProcessFrames(s, env, frames))
    decreases |frames|
  {
    if frames != [] {
      RejectProtocolKeeps(s, env);
      ProcessFrameKeeps(s, env, frames[0]);
      ProcessFramesKeeps(ProcessFrame(s, env, frames[0]), env, frames[1..]);
    }
  }
}
