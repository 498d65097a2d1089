# A model of the Aegisy runtime client, the local gateway and the path policy

The project models three components in Dafny and proves what they are for.

**The runtime client** (`src/agent_runtime_client.cpp`) talks to a sidecar process over newline-delimited JSON-RPC.

- `ClientState.dfy` is its connection as a state machine on the stdio transport: every Qt slot, timer, deferred
  callback and public call is one step, a function from a state and from the answers of the environment (what a write
  returns, how a launch ends, in which order a hash table is visited) to the next state. The state keeps three
  histories: requests written and reported, relaunches and resets, probes and answers.
- `ClientRequests.dfy`, `ClientInvariants.dfy`, `ClientSteps.dfy`, `ClientHeartbeats.dfy`, `ClientMessages.dfy` and
  `ClientRuns.dfy` prove an invariant over every step, in every interleaving; `ClientGuarantees.dfy` states what it
  means for runs.
- Three more passes over all steps: `ClientReports.dfy` counts exactly how often a request is reported,
  `ClientReadiness.dfy` tells which sessions each state of the reconnection goes with, and `ClientRest.dfy` shows that
  a client which has stopped or given up stays at rest until it is started or its policy changes.
- `ClientProgress.dfy`, `ClientExchanges.dfy` and `ClientAdmission.dfy` state what each operation does field by field,
  apart from the functions of the state machine: what follows the end of a process, what an answer, a timer or a call
  brings about, and exactly when a request is written.
- `ClientWitnesses.dfy` holds closed runs, from the constructor on and with a concrete environment, in which a plausible
  claim fails. `FriendlyIsFair`, and a lemma for each run, say that the results about runs apply to them.
- `AgentRuntimeClient.dfy` is the class. Its methods follow the source statement by statement and are proved to compute
  the functions of the state machine. The request table is held in fields of its own, and the scalar fields in four
  records by concern. A few repeated groups of statements are methods of their own.
- `Capabilities.dfy` holds the capabilities, the methods and the admission rules between them; `CapabilityUses.dfy` is the
  inverse, the uses of each capability, and `Handshakes.dfy` the four kinds of backend that a handshake may announce.
- `FrameReader.dfy` is the byte level of the receive path, with the constant frame limit that `FlagsNeedHandshake`
  justifies; `TransportFrames.dfy` says which frames a stream amounts to, and `Lines.dfy` is the cutting of streams into lines.
- `TimelineData.dfy`, `KeyOrder.dfy`, `CanonicalJson.dfy` and `TimelineEvents.dfy` are the validators of timeline events,
  the canonical printer with a parser that inverts it, and the event identity. `TimelineLayout.dfy` gives the texts and
  the hashed bytes piece by piece, `DataBounds.dfy` the bounds on data value by value.
- `Bytes.dfy`, `Identities.dfy` and `ContentIdentities.dfy` are the length-framed identities, and `IdentityLayouts.dfy` what
  each of them hashes in which order. `CommandServer.dfy` and `CommandCuts.dfy` are a runtime that cuts recorded outputs
  into pages: the check accepts exactly its pages. `ArtifactTruncation.dfy` does the same for whole outputs. `CommandPages.dfy`,
  `CompleteArtifact.dfy` and `DurableMutations.dfy` are the paging checks, proved over whole chains of pages; `Utf16.dfy` is
  the check for Unicode scalar strings. `Json.dfy`, `Decimal.dfy`, `Numbers.dfy` and `Options.dfy` are shared.

**The local gateway** (`assets/local_gateway.js`): `GatewayControl.dfy` is its prepare/commit/abort protocol and
`GatewayMessages.dfy` the same protocol told by the messages alone; `GatewayUsage.dfy` and `GatewayStream.dfy` are the
extraction of usage numbers from streamed bodies.

**The path policy** (`include/canonical_path_policy.h`): `PathPolicy.dfy`.

Conventions. SHA-256 is a parameter, any function from byte strings to byte strings, assumed injective, or to have 32
bytes, where a result needs it. A JSON value is a datatype whose objects are maps; a JSON text is a string of Unicode scalar values. A request
id is the number behind its decimal text, zero standing for the empty text. Time does not occur: a timer may fire at any
moment, only the reconnect timer has to be active.

Where the code does not keep what one would expect of it, the model keeps the code:

- A change of the emergency policy during a handshake reports the initialize request as failed but leaves its id with
  the session; one more malformed line reports it again. `ReportedTwice` is a run that shows it, and `ReportedOnce` says
  of every run and every id exactly when it happens.
- Under the emergency policy `runtime/heartbeat` is not in the allow-list, so a connection that negotiates heartbeats is
  torn down right after its handshake has been accepted (`FirstHeartbeatDecides`, and the run
  `HeartbeatEndsEmergencyConnection`).
- A ready client need not have an idle reconnection: a failed recovery leaves `isReady()` as it is. The run
  `ReadyAlthoughExhausted` shows it, and `ReadyUnlessRecoveryFailed` says of every run exactly when it happens.
- A line of exactly the frame limit that ends with a carriage return is accepted or rejected depending on where a read
  ends (`BoundaryCut`, `BoundaryExists`, `ChunkIndependence`).
- `processTransportBytes` goes on with the next line after a message has been rejected (`ProcessTransportLines`).
- A null and an empty inline text share the identity of a page (`NullInlineSharesIdentity`).
- A truncated output that itself contains the line for its omitted bytes is rejected (`TruncationAccepted`).
- Clipping the event buffer of the gateway at 1 MiB loses lines, exactly when a chunk overflows it
  (`SseLinesExactlyWhenNoOverflow`).

Small facts beside the results below: `FourBytesSuffice` (pages of four bytes carry any text), `WholeAccepted` (a whole
output with an honest report is accepted), `CaseMattersOnPosixOnly`, `AnswerNamesMessage` (an answer repeats the ids of its
message), `ModeOfBackend` (what a valid initialize result carries), `StopRests` (stop and
giving up put the client to rest), `OpenTransactionCanFinish` (a pending action can be committed and aborted),
`MemberOrderImmaterial` (the order in which the members of an event are received changes neither text nor identity).

`dafny verify dfyconfig.toml` checks the whole project.

## Model

| member | source | states |
|---|---|---|
| `ClientGuarantees.RelaunchesBounded` | src/agent_runtime_client.cpp:7207-7245 | In every run the reconnect attempts never exceed the delays, which are at most three, and the relaunches since the last reset (start or the stability timer) never exceed the attempts, across both places that count an attempt and all three that relaunch |
| `ClientGuarantees.FailedRelaunch` | src/agent_runtime_client.cpp:7247-7267 | A due relaunch whose process does not start uses one launch and makes the next relaunch due; after the last delay it exhausts the reconnection instead |
| `ClientGuarantees.ExhaustedAfterAllDelays` | src/agent_runtime_client.cpp:7223-7235 | If no process ever starts, every delay that is left is used for exactly one more launch and then the client gives up |
| `ClientGuarantees.BoundAttained` | src/agent_runtime_client.cpp:4135-4152 | The bound on relaunches is attained: the run of a fresh client whose processes never start makes exactly one relaunch for every delay |
| `ClientGuarantees.WaitingIsDue` | src/agent_runtime_client.cpp:7207-7245 | In every run a client that waits for its next attempt has the relaunch timer active, scheduled for the current generation, and nothing that would keep it from relaunching |
| `ClientGuarantees.PendingAndRetiredApart` | src/agent_runtime_client.cpp:7291-7299 | In every run no pending id is retired, and the retired set is exactly its order list, without repetition and at most 1024 long |
| `ClientGuarantees.ReportedOnce` | src/agent_runtime_client.cpp:6980-6999 | In every run an id is reported (result or failure) at most twice, and at most once if and only if no step of the run reads a faulty frame, while output is looked at, at a moment when the id is that of an open handshake and no longer pending |
| `ClientReports.PolicyChangeInterrupts` | src/agent_runtime_client.cpp:4154-4186 | A change of the emergency policy reports an open handshake and yet leaves its id with the session, exactly when it restarts a running runtime |
| `ClientReports.InterruptedStep` | src/agent_runtime_client.cpp:6893-6910 | Any of the sixteen kinds of step reports an interrupted handshake once more if and only if it is a read, with output looked at, of which some frame is too long, undecodable, a notification or an undecodable response |
| `ClientReports.GoneStaysSilent` | src/agent_runtime_client.cpp:7291-7304 | An id that is neither pending nor that of the open handshake is reported by no step whatever |
| `ClientReports.ReportedTwiceExactly` | src/agent_runtime_client.cpp:6980-6999 | From every state that keeps the invariant, a run reports an id twice if and only if it was reported twice before or some step finds its handshake interrupted and reads a faulty frame |
| `ClientWitnesses.ReportedTwice` | src/agent_runtime_client.cpp:6980-6988 | A closed run of three steps (start, policy change, one undecodable line) in which the first id is reported twice: the unconditional claim is false |
| `ClientGuarantees.SentOnce` | src/agent_runtime_client.cpp:5955-5977 | No id is sent in two generations |
| `ClientGuarantees.DeliveredInItsGeneration` | src/agent_runtime_client.cpp:6289-6315 | A result is delivered in the one generation in which its request was sent |
| `ClientGuarantees.WrittenMethods` | src/agent_runtime_client.cpp:5913-5954 | Every request frame ever written obeys its phase: only initialize before the handshake, the eight methods of read-only recovery in recovery mode, the five of an unavailable backend while not ready, and the allow-lists of a pending reconnect recovery, of unknown liveness and of the emergency policy; and every capability that the call needs was negotiated |
| `ClientGuarantees.FlagsNeedHandshake` | src/agent_runtime_client.cpp:3580-3602 | In every run ready, recovery mode, negotiated heartbeats and a pending recovery imply a complete handshake, healthy implies negotiated, a complete handshake leaves no initialize id, the frame limit is always 4 MiB, and isReady and isReconnectRecoveryAvailable are never both true |
| `ClientGuarantees.OneHeartbeat` | src/agent_runtime_client.cpp:7075-7116 | In every run two pending heartbeats are the same one: the heartbeat that the client waits for, of the current generation, after a handshake |
| `ClientGuarantees.ProbesBounded` | src/agent_runtime_client.cpp:7158-7186 | In every run at most three recovery probes are written between two answers, the recovery attempt stays within the backoff list, and two scheduled probes that can still act are one and the same |
| `ClientGuarantees.FirstHeartbeatDecides` | src/agent_runtime_client.cpp:6833-6849 | After an accepted handshake with heartbeats the connection outlives the first heartbeat if and only if that heartbeat is admitted and written, or the connection is being stopped; under the emergency policy it is never admitted |
| `ClientWitnesses.HeartbeatEndsEmergencyConnection` | src/agent_runtime_client.cpp:5996-6070 | A closed run of three steps (emergency policy, start, a valid handshake with heartbeats) after which the connection is closed and the reconnection exhausted |
| `ClientGuarantees.ReadyUnlessRecoveryFailed` | src/agent_runtime_client.cpp:4433-4501 | In every run a ready client has an idle reconnection or an exhausted one that is suppressed; and it is ready outside the idle state if and only if its backend and heartbeat are fine, an earlier step failed the recovery of this very generation, and no step since then has stopped it, restarted it for a policy or started it anew |
| `ClientWitnesses.ReadyAlthoughExhausted` | src/agent_runtime_client.cpp:4444-4452 | A closed run of four steps (a start that fails, its relaunch, a valid handshake, a failed recovery) after which the client is ready and its reconnection exhausted |
| `ClientReadiness.StepStrands` | src/agent_runtime_client.cpp:2458-2582 | One step, whatever it is: generations only grow, none opens a second session, a waiting client keeps its relaunch, and a usable session outside the idle state comes from a failed recovery only and stays as it is until it ends or the client is stopped, restarted or started |
| `ClientReadiness.MaroonedByFailure` | src/agent_runtime_client.cpp:4433-4452 | If a run ends with a usable session outside the idle state, one of its steps failed the recovery of that generation and no later one left it |
| `ClientReadiness.FailureMaroons` | src/agent_runtime_client.cpp:4433-4452 | Conversely a failed recovery that was not left keeps its session outside the idle state for as long as the session lasts |
| `ClientRest.RunRests` | src/agent_runtime_client.cpp:7269-7279 | From a state at rest (automatic reconnection suppressed, no policy restart owed) no run without start and policy change launches a process, begins a generation or ends the rest |
| `ClientRest.StepRests` | src/agent_runtime_client.cpp:4188-4193 | No single slot, timer, callback or call other than start and policy change does, whatever the environment answers |
| `ClientRuns.StepKeeps` | src/agent_runtime_client.cpp:2458-2582 | Every slot, timer, deferred callback and public call keeps the whole invariant of the connection, whatever the environment answers |
| `ClientRuns.RunKeeps` | src/agent_runtime_client.cpp:2430-2582 | Hence every run does |
| `ClientInvariants.ClearKeeps` | src/agent_runtime_client.cpp:6938-6978 | Clearing the negotiation state keeps the invariant: the outstanding heartbeat is retired and every flag that presupposes a handshake goes with it |
| `ClientInvariants.RejectInitializeKeeps` | src/agent_runtime_client.cpp:6893-6910 | Rejecting a handshake keeps the invariant, also after its id has been reported once |
| `ClientInvariants.FailPendingKeeps` | src/agent_runtime_client.cpp:6980-6988 | Failing everything pending keeps the invariant as long as no open handshake loses its entry unnoticed |
| `ClientRequests.FailAllKeeps` | src/agent_runtime_client.cpp:6980-6999 | Failing a set of pending requests in any order of the hash table keeps the request table in order and reports exactly that set |
| `ClientRequests.RetireKeeps` | src/agent_runtime_client.cpp:7291-7299 | Retiring an id keeps set and order list equal, distinct and bounded |
| `ClientRequests.IssueKeeps` | src/agent_runtime_client.cpp:5955-5977 | A new request is pending in its generation, not retired, written under its phase and not yet reported |
| `ClientSteps.AdmissionFollowsPhase` | src/agent_runtime_client.cpp:5916-5954 | What sendRequest admits, its phase allows: the capabilities of recovery mode and of an unavailable backend admit exactly their methods |
| `ClientSteps.LaunchProcessKeeps` | src/agent_runtime_client.cpp:4188-4335 | A launch keeps the invariant, provided that one on behalf of a reconnect has a spare attempt to use up |
| `ClientSteps.SendInitializeKeeps` | src/agent_runtime_client.cpp:4337-4374 | Opening the handshake keeps the invariant in a generation in which nothing has happened yet |
| `ClientHeartbeats.AbandonAmbiguousKeeps` | src/agent_runtime_client.cpp:7001-7061 | Abandoning a connection takes the attempt and the debt of a relaunch together |
| `ClientHeartbeats.SendHeartbeatKeeps` | src/agent_runtime_client.cpp:7075-7116 | A heartbeat keeps the invariant, a probe only if no other probe is scheduled and one of the three is left |
| `ClientHeartbeats.HeartbeatErrorKeeps` | src/agent_runtime_client.cpp:6455-6459 | An error reply to the heartbeat is one report, after which the request is retired |
| `ClientMessages.NegotiatedKeeps` | src/agent_runtime_client.cpp:6389-6398 | An accepted handshake fixes the mode, the capabilities that belong to it and the 4 MiB limit, and resolves its own request |
| `ClientMessages.BeatAnsweredKeeps` | src/agent_runtime_client.cpp:6497-6519 | The answer to the outstanding heartbeat resets the recovery attempts |
| `ClientRuns.OnStabilityTimerKeeps` | src/agent_runtime_client.cpp:2488-2498 | The stability timer may reset the attempts because no relaunch is owed then |
| `ClientRuns.OnProbeTimerKeeps` | src/agent_runtime_client.cpp:7174-7185 | A firing probe leaves no other one that could act |
| `ClientRuns.OnFinishedKeeps` | src/agent_runtime_client.cpp:2525-2582 | The end of a process keeps the invariant in all its branches: policy restart, planned termination, owed relaunch, and all others |
| `Capabilities.RecoveryAdmits` | src/agent_runtime_client.cpp:2066-2088 | A call needs no capability beyond those of read-only recovery if and only if it is one of eight methods |
| `Capabilities.UnavailableAdmits` | src/agent_runtime_client.cpp:2045-2063 | A call needs no capability beyond those of an unavailable backend if and only if it is one of five methods |
| `AgentRuntimeClient.AgentRuntimeClient.constructor` | src/agent_runtime_client.cpp:2430-2449 | A client in the initial state, with at most three delays, each between 0 and 30000 |
| `AgentRuntimeClient.AgentRuntimeClient.RetireResponseId` | src/agent_runtime_client.cpp:7291-7299 | The loop retires the id and drops the oldest ones as Retire says |
| `AgentRuntimeClient.AgentRuntimeClient.FailPending` | src/agent_runtime_client.cpp:6980-6988 | The loop over the hash table retires and reports everything pending |
| `AgentRuntimeClient.AgentRuntimeClient.FailOrdinaryPending` | src/agent_runtime_client.cpp:6990-6999 | The loop retires, removes and reports everything pending but the liveness methods |
| `AgentRuntimeClient.AgentRuntimeClient.SuppressAutomaticReconnect` | src/agent_runtime_client.cpp:7269-7279 | The new state is that of Suppress |
| `AgentRuntimeClient.AgentRuntimeClient.ClearNegotiationState` | src/agent_runtime_client.cpp:6938-6978 | The new state is that of Clear |
| `AgentRuntimeClient.AgentRuntimeClient.RejectProtocolMessage` | src/agent_runtime_client.cpp:6924-6936 | The new state is that of RejectProtocol |
| `AgentRuntimeClient.AgentRuntimeClient.RejectInitializeResponse` | src/agent_runtime_client.cpp:6893-6910 | The new state is that of RejectInitialize |
| `AgentRuntimeClient.AgentRuntimeClient.SendRequest` | src/agent_runtime_client.cpp:5913-5992 | The new state and the returned id are those of SendRequest, with every early return and every outcome of writeMessage; ClientAdmission.AskedExactly says what they are |
| `AgentRuntimeClient.AgentRuntimeClient.ScheduleReconnect` | src/agent_runtime_client.cpp:7207-7245 | The new state is that of ScheduleReconnect; the delay is looked up with an index in range |
| `AgentRuntimeClient.AgentRuntimeClient.HandleRetryableProcessFailure` | src/agent_runtime_client.cpp:7188-7205 | The new state is that of HandleRetryable |
| `AgentRuntimeClient.AgentRuntimeClient.ErrorOccurred` | src/agent_runtime_client.cpp:2505-2524 | The new state is that of OnError |
| `AgentRuntimeClient.AgentRuntimeClient.SendInitializeRequest` | src/agent_runtime_client.cpp:4337-4374 | The new state is that of SendInitialize |
| `AgentRuntimeClient.AgentRuntimeClient.LaunchProcess` | src/agent_runtime_client.cpp:4188-4335 | The new state is that of LaunchProcess, for every way a launch can end on stdio |
| `AgentRuntimeClient.AgentRuntimeClient.BeginReconnectAttempt` | src/agent_runtime_client.cpp:7247-7267 | The new state is that of BeginReconnect |
| `AgentRuntimeClient.AgentRuntimeClient.AbandonAmbiguousConnection` | src/agent_runtime_client.cpp:7001-7061 | The new state is that of AbandonAmbiguous |
| `AgentRuntimeClient.AgentRuntimeClient.SendHeartbeat` | src/agent_runtime_client.cpp:7075-7116 | The new state is that of SendHeartbeat |
| `AgentRuntimeClient.AgentRuntimeClient.ScheduleHeartbeatRecoveryProbe` | src/agent_runtime_client.cpp:7158-7186 | The new state is that of ScheduleProbe; the delay is looked up with an index in range |
| `AgentRuntimeClient.AgentRuntimeClient.HandleHeartbeatTimeout` | src/agent_runtime_client.cpp:7118-7156 | The new state is that of HeartbeatTimeout |
| `AgentRuntimeClient.AgentRuntimeClient.AcceptInitializeResponse` | src/agent_runtime_client.cpp:6820-6891 | The new state is that of AcceptInitialize |
| `AgentRuntimeClient.AgentRuntimeClient.SendStartupQueries` | src/agent_runtime_client.cpp:6864-6890 | The queries of a usable connection, each under the capabilities that are left by then |
| `AgentRuntimeClient.AgentRuntimeClient.ProcessErrorResponse` | src/agent_runtime_client.cpp:6400-6486 | The new state is that of ProcessError |
| `AgentRuntimeClient.AgentRuntimeClient.ProcessHeartbeatResult` | src/agent_runtime_client.cpp:6497-6519 | The new state is that of ProcessHeartbeat |
| `AgentRuntimeClient.AgentRuntimeClient.ProcessResultResponse` | src/agent_runtime_client.cpp:6487-6607 | The new state is that of ProcessResult, with delivery as one step |
| `AgentRuntimeClient.AgentRuntimeClient.ProcessLine` | src/agent_runtime_client.cpp:6172-6336 | The new state is that of ProcessFrame |
| `AgentRuntimeClient.AgentRuntimeClient.ProcessTransportLines` | src/agent_runtime_client.cpp:6121-6170 | The loop goes on after a message has been rejected and ends only at a line that is too long or undecodable |
| `AgentRuntimeClient.AgentRuntimeClient.Start` | src/agent_runtime_client.cpp:4135-4152 | The new state is that of OnStart |
| `AgentRuntimeClient.AgentRuntimeClient.Stop` | src/agent_runtime_client.cpp:4397-4431 | The new state is that of OnStop |
| `AgentRuntimeClient.AgentRuntimeClient.SetEmergencyDisabled` | src/agent_runtime_client.cpp:4154-4186 | The new state is that of OnSetEmergency |
| `AgentRuntimeClient.AgentRuntimeClient.AbandonTimelineSubscriptionConnection` | src/agent_runtime_client.cpp:7063-7073 | The new state is that of OnAbandon |
| `AgentRuntimeClient.AgentRuntimeClient.CompleteReconnectRecovery` | src/agent_runtime_client.cpp:4433-4501 | The new state is that of OnCompleteRecovery, and the result says whether the recovery was completed |
| `AgentRuntimeClient.AgentRuntimeClient.StartupTimeout` | src/agent_runtime_client.cpp:2458-2480 | The new state is that of OnStartupTimer |
| `AgentRuntimeClient.AgentRuntimeClient.StabilityTimeout` | src/agent_runtime_client.cpp:2488-2498 | The new state is that of OnStabilityTimer |
| `AgentRuntimeClient.AgentRuntimeClient.ProbeTimeout` | src/agent_runtime_client.cpp:7174-7185 | The new state is that of OnProbeTimer |
| `AgentRuntimeClient.AgentRuntimeClient.Finished` | src/agent_runtime_client.cpp:2525-2582 | The new state is that of OnFinished; ClientProgress.UnexpectedEnd, StoppedEnd, PolicyEnd and OwedEndOpens say what it is |
| `AgentRuntimeClient.AgentRuntimeClient.Handle` | src/agent_runtime_client.cpp:2458-2582 | Whatever happens to the object is the step of the state machine for which the results about runs are stated |
| `FrameReader.TransportReader.ProcessTransportBytes` | src/agent_runtime_client.cpp:6121-6170 | Reading bytes yields the state of Received: the buffer is drained line by line under the rules for over-long, blank and undecodable lines |
| `FrameReader.BufferIsOneOpenLine` | src/agent_runtime_client.cpp:6121-6170 | After a read that rejects nothing the buffer holds no newline and at most the limit |
| `FrameReader.ChunkIndependence` | src/agent_runtime_client.cpp:6121-6170 | For a stream cut into reads in any way, the frames handed over up to the first rejection are those of the whole stream, split once, for every cut if and only if the stream passes no line of exactly the limit followed by a carriage return |
| `FrameReader.BoundaryCut` | src/agent_runtime_client.cpp:6146-6158 | For every stream that passes a line of exactly the limit followed by a carriage return there is a cut into reads that hands over other frames than the whole stream |
| `FrameReader.BoundaryExists` | src/agent_runtime_client.cpp:6146-6158 | A closed stream that passes such a line: as many letters as the limit, a carriage return and a newline |
| `FrameReader.RejectionIsFinal` | src/agent_runtime_client.cpp:6123-6126 | Once a stream is rejected, more bytes do not change what was handed over, unless the longer stream passes such a boundary line |
| `Lines.FeedAppend` | assets/local_gateway.js:353-360 | Cutting a stream into lines chunk by chunk is cutting it at once |
| `Lines.FeedInjective` | assets/local_gateway.js:353-360 | Two different cuts stay different under the same further chunk |
| `TimelineData.IsValidTimelineDataValue` | src/agent_runtime_client.cpp:537-566 | From depth d with n values counted the one-pass check accepts a value if and only if n plus its size is at most 4096, d plus its height less one is at most 16 and every number, key and width is legal; then the counter has grown by exactly its size |
| `TimelineData.AllItems` | src/agent_runtime_client.cpp:546-552 | The short-circuiting pass over an array accepts exactly the arrays whose items all fit together |
| `TimelineData.AllMembers` | src/agent_runtime_client.cpp:554-563 | The pass over an object accepts exactly the objects whose keys and values all fit together |
| `KeyOrder.Sorted` | src/agent_runtime_client.cpp:753-757 | Sorting the keys yields the ascending list of SortedKeys |
| `KeyOrder.SortedKeysAscend` | src/agent_runtime_client.cpp:753-757 | The sorted keys ascend by their UTF-8 bytes |
| `KeyOrder.AscendingUnique` | src/agent_runtime_client.cpp:753-757 | There is only one ascending list of the keys without repetition |
| `CanonicalJson.TextRoundTrip` | src/agent_runtime_client.cpp:730-735 | The parser reads a quoted and escaped text back |
| `CanonicalJson.ValueRoundTrip` | src/agent_runtime_client.cpp:737-771 | The parser reads back every value without fractions and undefined parts from its canonical text, whatever text follows that does not start with a digit |
| `CanonicalJson.Unambiguous` | src/agent_runtime_client.cpp:737-771 | Two canonical texts in front of equal remainders are texts of the same value |
| `CanonicalJson.RecordUnambiguous` | src/agent_runtime_client.cpp:773-797 | Equal records with fixed keys agree member by member |
| `TimelineEvents.ItemUnambiguous` | src/agent_runtime_client.cpp:773-797 | Equal canonical texts of valid items, with or without data, are texts of the same item |
| `TimelineEvents.UpdateUnambiguous` | src/agent_runtime_client.cpp:799-810 | Equal canonical texts of valid item updates are texts of the same update |
| `TimelineEvents.TextBindsEvent` | src/agent_runtime_client.cpp:2601-2639 | Valid events with the same canonical text agree on all ten bound members |
| `TimelineEvents.EventIdentityBinds` | src/agent_runtime_client.cpp:2601-2639 | Valid events with the same event id are the same event |
| `TimelineEvents.IdentityBindsContent` | src/agent_runtime_client.cpp:2627-2639 | Valid events with the same identity agree on all ten bound members |
| `Bytes.UnsignedBigEndianRoundTrip` | src/agent_runtime_client.cpp:286-294 | Eight big-endian bytes determine any number below 2^64 |
| `Bytes.AppendLengthFramed` | src/agent_runtime_client.cpp:296-301 | Appending components one after the other yields the framed list |
| `Bytes.LengthFramedAllInjective` | src/agent_runtime_client.cpp:296-301 | A framed list determines its components, however many |
| `Bytes.DomainMaterialInjective` | src/agent_runtime_client.cpp:303-314 | NUL-free domains never share a material, and within one the material determines the components |
| `Bytes.Utf8Injective` | src/agent_runtime_client.cpp:2786-2814 | Texts with the same UTF-8 bytes are equal |
| `Identities.IdentityInjective` | src/agent_runtime_client.cpp:303-314 | An identity determines its component list, the digest being injective |
| `Identities.DomainsDisjoint` | src/agent_runtime_client.cpp:303-314 | Identities of different domains never come from the same digest |
| `Identities.IdentityOfInjective` | src/agent_runtime_client.cpp:3010-3210 | Equal non-empty identities over the same typed members come from equal values; the encoding of null never meets that of an accepted number |
| `ContentIdentities.MutationIdentityBinds` | src/agent_runtime_client.cpp:2786-2814 | A mutation identity determines session, kind, idempotency key and fingerprint |
| `ContentIdentities.BindingIdentityBinds` | src/agent_runtime_client.cpp:3010-3066 | A binding identity determines all bound metadata of a page |
| `ContentIdentities.PreviewIdentityBinds` | src/agent_runtime_client.cpp:3068-3104 | A preview identity determines the preview |
| `ContentIdentities.LimitsIdentityBinds` | src/agent_runtime_client.cpp:3106-3122 | A limits identity determines both limits |
| `ContentIdentities.CursorIdentityBinds` | src/agent_runtime_client.cpp:3124-3156 | A cursor identity determines the cursor, with or without a binding |
| `ContentIdentities.PageIdentityBinds` | src/agent_runtime_client.cpp:3158-3210 | A page identity determines the page, the inline text being a string |
| `CommandPages.AcceptedPageIsPlaced` | src/agent_runtime_client.cpp:3392-3446 | An accepted page lies inside its content, is empty only if the content is, carries as many bytes as it says and lacks a next cursor exactly when it reaches the end |
| `CommandPages.NothingWraps` | src/agent_runtime_client.cpp:3282-3465 | Whatever the check is given, accepted or not, none of its 64-bit sums and differences wraps |
| `CommandPages.AcceptedContinuation` | src/agent_runtime_client.cpp:3484-3524 | A continuation with the cursor of the page before starts where that page ended and has the same bound metadata |
| `CommandPages.ChainReassembles` | src/agent_runtime_client.cpp:3212-3524 | In a chain of accepted pages the offsets are contiguous and strictly increasing, the concatenated bytes reach exactly the end of the last page, and there are at most as many pages as bytes, or one |
| `CommandPages.SameBindingThroughout` | src/agent_runtime_client.cpp:3431-3466 | All pages of a chain have identical bound metadata |
| `CommandPages.PageLiesAtItsOffset` | src/agent_runtime_client.cpp:3212-3524 | Each page of a chain lies at its own offset of the reassembled content |
| `CompleteArtifact.MarkerInPlaceIffUniqueGoodSplit` | src/agent_runtime_client.cpp:3556-3577 | The check on first and last occurrence of the marker accepts if and only if the content splits in exactly one way as head, marker and tail, and that split keeps both limits |
| `CompleteArtifact.AcceptedIffOneOmission` | src/agent_runtime_client.cpp:3526-3578 | An artifact is accepted if and only if its sizes and digests are consistent and, when bytes are omitted, exactly one split exists |
| `CompleteArtifact.OmissionAccountsForTotal` | src/agent_runtime_client.cpp:3526-3578 | Head, omitted bytes and tail add up to the total, head and tail to the retained bytes |
| `CompleteArtifact.CompleteChainAgrees` | src/agent_runtime_client.cpp:3310-3322 | The length equation of an accepted chain of pages is that of the complete artifact |
| `DurableMutations.IsValidDurableMutationPage` | src/agent_runtime_client.cpp:1708-1760 | The check accepts exactly the pages whose operations are valid, of the session and strictly increasing from the cursor, and whose next cursor names the last operation unless the page is complete |
| `DurableMutations.OperationsAreValid` | src/agent_runtime_client.cpp:1738-1751 | The loop with its previous identity accepts exactly the strictly climbing lists of valid operations of the session |
| `DurableMutations.IncompletePageAdvances` | src/agent_runtime_client.cpp:1752-1759 | An incomplete page is not empty, and its next cursor is above the cursor it was asked for |
| `DurableMutations.ChainRises` | src/agent_runtime_client.cpp:1708-1760 | Across a chain of pages the operation identities are strictly increasing |
| `DurableMutations.ChainHasNoDuplicates` | src/agent_runtime_client.cpp:1662-1674 | No two operations of a chain are on the same session, idempotency key and fingerprint |
| `Utf16.IsUnicodeScalarString` | src/agent_runtime_client.cpp:343-357 | The loop accepts exactly the well-paired sequences of 16-bit units |
| `Utf16.WellPairedIffEncoding` | src/agent_runtime_client.cpp:343-357 | A sequence is well paired if and only if it is the UTF-16 encoding of some text |
| `Utf16.EncodeDecode` | src/agent_runtime_client.cpp:343-357 | Decoding an encoded text yields the text |
| `Utf16.DecodeEncode` | src/agent_runtime_client.cpp:343-357 | Encoding a decoded sequence yields the sequence |
| `PathPolicy.Normalize` | include/canonical_path_policy.h:21-37 | The chopping loop computes Normalized |
| `PathPolicy.NormalizedIsLongest` | include/canonical_path_policy.h:21-37 | No prefix that leaves out separators only and ends with none that could go is longer than the normal form |
| `PathPolicy.NormalizedIdempotent` | include/canonical_path_policy.h:21-37 | Normalizing twice is normalizing once |
| `PathPolicy.EqualsReflexive` | include/canonical_path_policy.h:45-52 | A path equals itself if and only if it is not empty |
| `PathPolicy.EqualsSymmetricTransitive` | include/canonical_path_policy.h:45-52 | Equality of paths is symmetric and transitive |
| `PathPolicy.StrictDescendantOnKeys` | include/canonical_path_policy.h:54-67 | A strict descendant is one whose key properly extends the key of the parent at a separator |
| `PathPolicy.StrictDescendantOrder` | include/canonical_path_policy.h:54-67 | Strict descent is irreflexive, asymmetric and transitive |
| `PathPolicy.StrictDescendantRespectsEquals` | include/canonical_path_policy.h:45-67 | Strict descent respects equality on both sides and excludes it |
| `PathPolicy.Roots` | include/canonical_path_policy.h:28-36 | Exactly the absolute paths other than / descend from /, and exactly the longer paths under C:/ from C:/ |
| `GatewayControl.Gateway.HandleControl` | assets/local_gateway.js:423-502 | One control message changes the three maps and answers as Handle says |
| `GatewayControl.Serializable` | assets/local_gateway.js:423-502 | After every history the revision of a tool is the number of its commits, its profile is the fold of the committed actions, and a pending action carries the current revision |
| `GatewayControl.CommitsAtMostOncePerRevision` | assets/local_gateway.js:455-482 | Two successful commits of a tool have different revisions |
| `GatewayControl.CommitMessageNeverAcceptedTwice` | assets/local_gateway.js:455-482 | A commit message that was accepted is rejected whenever it is repeated |
| `GatewayControl.OnlyCommitsChangeProfiles` | assets/local_gateway.js:430-482 | Rejection changes nothing, prepare and abort neither profile nor revision, and a commit or abort answers the pending transaction only |
| `GatewayControl.PrepareAbortRestores` | assets/local_gateway.js:430-482 | Preparing and aborting restores the state |
| `GatewayControl.DifferentToolsCommute` | assets/local_gateway.js:423-502 | Messages for different tools commute, answers included |
| `GatewayControl.ToolsAreIsolated` | assets/local_gateway.js:423-502 | What happens to a tool depends only on its own messages |
| `GatewayControl.InterleavingIrrelevant` | assets/local_gateway.js:423-502 | Histories with the same messages for every tool end in the same state, however they are interleaved |
| `GatewayUsage.UsageTarget.MergeUsage` | assets/local_gateway.js:133-144 | Merging one object raises each count that it states |
| `GatewayUsage.UsageTarget.InspectUsagePayload` | assets/local_gateway.js:146-154 | Inspecting a payload merges its six places |
| `GatewayUsage.UsageIsMaximum` | assets/local_gateway.js:133-154 | Each reported count is the largest number that any payload mentions for it, or absent if none does |
| `GatewayUsage.UsageIgnoresOrder` | assets/local_gateway.js:133-154 | The usage depends neither on the order nor on the repetition of payloads |
| `GatewayStream.ResponseHandlers.HandleData` | assets/local_gateway.js:346-365 | The data handler changes the state as OnData says |
| `GatewayStream.ResponseHandlers.DrainLines` | assets/local_gateway.js:355-360 | The loop over the newlines inspects the lines of the buffer and keeps the open one |
| `GatewayStream.ResponseHandlers.HandleTerminal` | assets/local_gateway.js:366-374 | The end, abort and error handlers change the state as OnTerminal says |
| `GatewayStream.JsonBufferIsPrefix` | assets/local_gateway.js:361-364 | However a body is cut, the buffer holds its first 4 MiB and the byte count is exact |
| `GatewayStream.SseLinesExactlyWhenNoOverflow` | assets/local_gateway.js:352-360 | The inspected lines are those of the whole stream if and only if no chunk made the open line and the chunk exceed 1 MiB |
| `GatewayStream.OneReport` | assets/local_gateway.js:318-338 | Exactly one report follows the first of end, abort and error |
| `GatewayStream.EventStreamReport` | assets/local_gateway.js:366-374 | The usage reported at the end of an event stream is the maximum over the lines of the whole stream, however it was cut |
| `GatewayStream.JsonReport` | assets/local_gateway.js:370-372 | A body of at most 4 MiB is inspected whole |
| `ClientProgress.UnexpectedEnd` | src/agent_runtime_client.cpp:2525-2582 | From every state in which a process runs that nobody stops, suppresses or has given up, and no relaunch is due yet, its end fails everything pending, closes the session and makes the next relaunch due with one attempt more, or exhausts the reconnection if no delay is left |
| `ClientProgress.UnexpectedEndInRuns` | src/agent_runtime_client.cpp:2578-2580 | The same after every run, so that a runtime that crashes is always followed by a relaunch or by giving up |
| `ClientProgress.StoppedEnd` | src/agent_runtime_client.cpp:2567-2577 | The end of a process that was being stopped closes the session, fails everything pending and leaves the reconnection idle, or exhausted if it was |
| `ClientProgress.PolicyEnd` | src/agent_runtime_client.cpp:2535-2546 | The end of a process that was terminated for a policy change leaves a clean client that may be started again |
| `ClientProgress.StartOpens` | src/agent_runtime_client.cpp:4135-4152 | A start whose launch succeeds opens the handshake of a new generation with fresh attempts, unless a process runs or a relaunch is under way, when nothing changes |
| `ClientProgress.RelaunchOpens` | src/agent_runtime_client.cpp:7247-7267 | A due relaunch whose launch succeeds opens the next generation on behalf of the same reconnect cycle and keeps its attempts |
| `ClientProgress.OwedEndOpens` | src/agent_runtime_client.cpp:2552-2560 | A connection that was given up for a reconnect is followed by the next generation as soon as its process ends |
| `ClientProgress.CrashedClientComesBack` | src/agent_runtime_client.cpp:2578-2580 | After every run a crashed client with a delay left opens the handshake of the next generation when its timer fires |
| `ClientProgress.DelaysAre` | src/agent_runtime_client.cpp:2430-2449 | The delays are the first three of those given, each cut to the range from 0 to 30000, and 0, 500 and 2000 when none are given |
| `ClientRequests.NewestAreRetired` | src/agent_runtime_client.cpp:7291-7299 | Retiring one id more keeps the newest 1024 in their order and forgets the oldest |
| `ClientExchanges.HandshakeSettles` | src/agent_runtime_client.cpp:6820-6891 | A valid answer to the open handshake makes the connection ready exactly for a ready or a recovering backend, with the capabilities it lists; it writes the heartbeat if negotiated and, unless a reconnect has to recover first, exactly the queries its capabilities allow |
| `ClientExchanges.HandshakeRefused` | src/agent_runtime_client.cpp:6336-6388 | Any other answer closes the session for good, discards the output and reports the initialize request |
| `ClientExchanges.StartupAsks` | src/agent_runtime_client.cpp:6864-6890 | A usable connection asks for health, degradations, catalogs, profiles and one of two recovery states, each exactly if its capability is negotiated |
| `ClientExchanges.ResultIsDelivered` | src/agent_runtime_client.cpp:6487-6607 | A result to a pending request is delivered once and removes just that request, if it is of the right type and, for the methods whose results are looked into, valid; otherwise it closes the session |
| `ClientExchanges.ErrorIsDelivered` | src/agent_runtime_client.cpp:6400-6486 | An error reply is delivered and removes just its request; a malformed one, or one whose data matter and are wrong, closes the session |
| `ClientExchanges.StrangerIsIgnored` | src/agent_runtime_client.cpp:6289-6314 | A response to no pending request changes nothing |
| `ClientExchanges.TimerBeats` | src/agent_runtime_client.cpp:7075-7116 | The heartbeat timer of a healthy connection writes one heartbeat with the next nonce and a deadline of its own |
| `ClientExchanges.AnswerHeals` | src/agent_runtime_client.cpp:6497-6519 | The answer with the nonce of the outstanding heartbeat makes the connection healthy and resets the probes; any other closes the session |
| `ClientExchanges.DeadlineMarks` | src/agent_runtime_client.cpp:7118-7156 | A missed heartbeat makes the connection unhealthy, fails exactly the requests that are no controls and schedules the next probe while one of the three is left |
| `ClientExchanges.DeadlineAbandons` | src/agent_runtime_client.cpp:7118-7156 | While a timeline subscription is pending, a missed heartbeat closes the session and owes one relaunch to the end of the process, with one attempt more, or exhausts the reconnection |
| `ClientExchanges.ProbeBeats` | src/agent_runtime_client.cpp:7174-7185 | A probe that is still current writes a heartbeat on the unhealthy connection and uses itself up |
| `ClientExchanges.RecoveryCompletes` | src/agent_runtime_client.cpp:4433-4501 | A completed recovery ends the reconnect cycle, keeps the attempts for the stability timer, and asks for what the capabilities allow |
| `ClientExchanges.StrangeRecoveryIsIgnored` | src/agent_runtime_client.cpp:4433-4443 | The report of a recovery for another generation, or for none, changes nothing |
| `ClientExchanges.StopShutsDown` | src/agent_runtime_client.cpp:4397-4431 | Stopping suppresses relaunches, leaves the reconnection idle and writes shutdown exactly if a session is open |
| `ClientExchanges.StabilityGivesBack` | src/agent_runtime_client.cpp:2488-2498 | The stability timer gives all attempts back if and only if it was set for the running generation and the connection is ready and idle; otherwise nothing changes |
| `ClientExchanges.StartupTimesOut` | src/agent_runtime_client.cpp:2458-2480 | The startup timer gives a generation up for good, failing everything pending and exhausting the reconnection, if and only if it is the running one, not ready and not being stopped; otherwise nothing changes |
| `ClientExchanges.PolicyChanges` | src/agent_runtime_client.cpp:4154-4186 | A change of the emergency policy fails everything pending and shuts the runtime down for a restart, if one runs that was started under the other policy; otherwise it notes the policy and ends a wait for a relaunch |
| `ClientExchanges.ErrorEndsOrReschedules` | src/agent_runtime_client.cpp:2505-2524 | A crash changes nothing until the process has ended; any other error ends the session of a running process for good, and that of one that is down makes the next relaunch due or exhausts the reconnection |
| `ClientExchanges.AbandonTerminates` | src/agent_runtime_client.cpp:7001-7073 | An abandoned connection owes one relaunch to the end of its process, with one attempt more, or is exhausted |
| `Handshakes.ValidExactly` | src/agent_runtime_client.cpp:1894-2100 | An initialize result is valid if and only if it identifies itself, lists 1 to 128 distinct capabilities, keeps the limit of 4194304 bytes and is one of four backends: preview, Codex, Codex unavailable, read-only recovery, each given by its adapter, its status and the capabilities it has to list and may list |
| `CapabilityUses.EntryExactly` | src/agent_runtime_client.cpp:2171-2290 | The inverse of the table: for each capability, exactly the listed methods are in the table with it |
| `CapabilityUses.NeededExactly` | src/agent_runtime_client.cpp:2171-2338 | A call needs a capability, on a given platform, if and only if its method is one of those the capability is there for, or the call is one of the eleven kinds listed besides (chat or work sessions, turns, contexts, pinned contexts, proposals, terminals by platform, stopping a terminal) |
| `CapabilityUses.EmergencySuspends` | src/agent_runtime_client.cpp:5913-5933 | The emergency policy suspends exactly the listed methods: those that begin or alter something, and the heartbeat |
| `CapabilityUses.ReconnectRestores` | src/agent_runtime_client.cpp:2350-2371 | A pending reconnect recovery lets exactly the listed methods through |
| `ClientAdmission.AskedExactly` | src/agent_runtime_client.cpp:5913-5992 | What asking for a method other than initialize and the heartbeat does: nothing, if the connection, its policies or its capabilities do not let it through; otherwise the request takes the next id and is written and pending, reported as failed if the frame is too large, or ends the session if the pipe is broken |
| `ClientAdmission.SentUnderItsCapabilities` | src/agent_runtime_client.cpp:5939-5949 | In every run each request that was written had every capability that its method is in the table with, or that its parameters call for, negotiated at that moment |
| `ClientAdmission.SavesNeedTheirCapability` | src/agent_runtime_client.cpp:5939-5949 | In every run a text is saved only over a connection that negotiated workspace.save-user-text |
| `ClientAdmission.UnknownIsNeverSent` | src/agent_runtime_client.cpp:5939-5949 | In every run no unknown method and neither of the two that have no capability is written |
| `TransportFrames.StreamExactly` | src/agent_runtime_client.cpp:6121-6170 | A whole stream is taken without a rejection if and only if its lines, less a carriage return each, and its open end have at most 4194304 bytes and those lines that are not white all decode and are taken in turn; these are its frames then |
| `Lines.CutIsWhole` | assets/local_gateway.js:353-360 | The lines with their newlines and the open end are the stream |
| `DataBounds.DataExactly` | src/agent_runtime_client.cpp:537-566 | The data of an item is valid if and only if it consists of at most 4096 values, nothing in it lies more than fifteen steps down, and every value in it is fine by itself: a safe integer, an array of at most 4096 items, an object of at most 128 members under graphical keys, a text, a truth value or null |
| `TimelineLayout.EventLayout` | src/agent_runtime_client.cpp:2608-2625 | The canonical text of an event is the ten literal key texts, from schema_version, sequence and timestamp_ms to item and item_update, each followed by the text of its value |
| `TimelineLayout.ItemLayout` | src/agent_runtime_client.cpp:773-797 | The canonical text of an item is id, kind, role, state, content and, if the item has it, data |
| `TimelineLayout.UpdateLayout` | src/agent_runtime_client.cpp:799-810 | The canonical text of an item update is revision and content_mode |
| `TimelineLayout.ValidScalarTexts` | src/agent_runtime_client.cpp:2608-2622 | In the text of a valid event numbers stand by their digits, names and states as they are, and identities with quotes and backslashes escaped |
| `TimelineLayout.EscapedExactly` | src/agent_runtime_client.cpp:730-735 | Exactly the printable characters other than quote and backslash are printed as they are; five control characters have a letter of their own and all others their code |
| `TimelineLayout.NumberText` | src/agent_runtime_client.cpp:730-735 | A number is printed by the digits that denote it, without leading zeros |
| `TimelineLayout.ArrayLayout` | src/agent_runtime_client.cpp:739-750 | An array is its items behind bracket and commas |
| `TimelineLayout.ObjectLayout` | src/agent_runtime_client.cpp:751-769 | An object is its members in the ascending order of the bytes of their keys, whatever list gives this order |
| `TimelineLayout.TurnEndText` | src/agent_runtime_client.cpp:2608-2625 | The whole text of one event, the one that ends a turn |
| `TimelineLayout.EventIdentityLayout` | src/agent_runtime_client.cpp:2627-2639 | The event identity is event:sha256: and the hexadecimal digest of the domain, NUL, the length in eight bytes and the canonical text |
| `TimelineLayout.EventIdentityExists` | src/agent_runtime_client.cpp:2603-2606 | There is an identity if and only if item and item_update are null or objects |
| `IdentityLayouts.IdentityLayout` | src/agent_runtime_client.cpp:303-314 | Each identity is its literal prefix and the hexadecimal digest of its literal domain, NUL and the framed components |
| `IdentityLayouts.ComponentLies` | src/agent_runtime_client.cpp:296-301 | In the hashed bytes every component lies behind its length, a big-endian number of eight bytes, in the order of the list |
| `IdentityLayouts.HexAt` | src/agent_runtime_client.cpp:303-314 | The digest is written with the digits 0 to f, the high half of a byte first |
| `IdentityLayouts.MutationLayout` | src/agent_runtime_client.cpp:2786-2814 | A mutation operation hashes session, kind, key and fingerprint in this order |
| `IdentityLayouts.MutationExists` | src/agent_runtime_client.cpp:2786-2794 | It has an identity if and only if its session, key and fingerprint are well formed and its kind is turn-start |
| `IdentityLayouts.PreviewLayout` | src/agent_runtime_client.cpp:3089-3103 | A preview hashes its nine members in the order given, absent numbers as the largest 64-bit number |
| `IdentityLayouts.LimitsLayout` | src/agent_runtime_client.cpp:3106-3122 | Limits hash their tag and the two limits |
| `IdentityLayouts.CursorLayout` | src/agent_runtime_client.cpp:3124-3156 | A cursor hashes reference, digest, bytes, media type, offset, page size, the identity of its limits and its binding if it has one |
| `IdentityLayouts.BindingLayout` | src/agent_runtime_client.cpp:3041-3066 | A page binding hashes its tag and the thirteen members in the order given |
| `IdentityLayouts.PageLayout` | src/agent_runtime_client.cpp:3158-3210 | A page hashes its members, the digest of its text, its limits, its binding and the name of what comes next, in this order |
| `Bytes.Utf8CharForm` | src/agent_runtime_client.cpp:2786-2814 | A character takes one to four bytes in UTF-8 by its range, with the lead and continuation bytes of RFC 3629, and they decode to it |
| `CommandServer.ServedIsAccepted` | src/agent_runtime_client.cpp:3212-3524 | Every page that a runtime makes of a recorded output, for a first request or for a cursor, is accepted: all its objects are given member by member, with preview, limits, cursors and identities |
| `CommandServer.AcceptedIsServed` | src/agent_runtime_client.cpp:3212-3524 | Conversely an accepted page is one of these, for the output, the cut and the text that are read off the page itself |
| `CommandServer.AcceptedExactlyServed` | src/agent_runtime_client.cpp:3212-3524 | A result is accepted for a request if and only if it is such a page for it, the digest having 32 bytes |
| `CommandServer.PreviewIsTruthful` | src/agent_runtime_client.cpp:3346-3353 | An accepted preview is truncated if and only if it has fewer bytes than the content |
| `CommandCuts.CutIsAccepted` | src/agent_runtime_client.cpp:3212-3524 | However a text is cut into pages of the size asked for, there is a chain of requests and results with these pages, every one is accepted, each follows the one before, the last is complete, and together they are the text |
| `CommandCuts.CuttingExists` | src/agent_runtime_client.cpp:3392-3430 | A text can be cut into pages of a size if and only if every single character fits into one |
| `CommandCuts.EveryOutputIsServed` | src/agent_runtime_client.cpp:3467-3483 | Hence any output whose characters fit the limits of the first request is served to the end |
| `ArtifactTruncation.AcceptedExactly` | src/agent_runtime_client.cpp:3526-3578 | A complete output is accepted if and only if the result reports its size, digest and totals and it is everything retained, or head, line and tail with 1048573 to 1048576 bytes at each end and no second such line |
| `ArtifactTruncation.TruncationAccepted` | src/agent_runtime_client.cpp:3556-3577 | An honestly truncated output is accepted if and only if both ends are long enough and the line it was given occurs nowhere else in it: outputs that contain such a line themselves are rejected |
| `DurableMutations.StagesExactly` | src/agent_runtime_client.cpp:1675-1706 | An operation is open, with nothing, its turn or its acceptance recorded, or it is over, with both anchors in order and the end consumed only after the acceptance |
| `PathPolicy.PosixNormalized` | include/canonical_path_policy.h:21-37 | On POSIX the normal form is the path without its trailing separators, but for a first one |
| `PathPolicy.WindowsNormalized` | include/canonical_path_policy.h:21-37 | On Windows backslashes become separators first, and a trailing separator stays only behind a drive |
| `PathPolicy.PosixIsExact` | include/canonical_path_policy.h:38-67 | POSIX paths are compared and nested character by character |
| `PathPolicy.WindowsFoldsCase` | include/canonical_path_policy.h:38-52 | Windows paths are equal if and only if their normal forms agree in length and, character by character, in case folding |
| `GatewayMessages.PreparedExactly` | assets/local_gateway.js:430-466 | A message is answered prepared if and only if it is addressed to one of the four tools with well-formed ids and the current revision, has exactly the members of its kind with a key that is not blank in a configuration, and nothing is pending for the tool |
| `GatewayMessages.FinishedExactly` | assets/local_gateway.js:467-491 | A commit or an abort is accepted if and only if it names the pending transaction of its tool and the current revision |
| `GatewayMessages.OpenedByMessage` | assets/local_gateway.js:454-466 | After every history the transaction that is pending for a tool is the one of the message that prepared it, with what that message proposed |
| `GatewayMessages.ProfileComesFrom` | assets/local_gateway.js:454-482 | After every history the active profile of a tool has exactly the key and the upstream of the message that prepared the last committed transaction, the default upstream only if it gave none, and there is no profile if that message removed it or nothing was committed |
| `GatewayUsage.StatedExactly` | assets/local_gateway.js:67-144 | A usage object states for a count the integral part of the first alias that is present, if it is a number from zero on, and zero if the last alias is null and none is present |
| `GatewayStream.InterruptedReport` | assets/local_gateway.js:318-400 | A response that is aborted or fails is reported with its cause, the bytes received and, for an event stream, what its complete lines mention; a failed request with neither |
| `GatewayStream.FirstReportStays` | assets/local_gateway.js:318-400 | After the first terminal event no other changes the report |

## Left out

- Unix sockets, named pipes, their endpoint directories and peer checks: the state machine is the stdio transport only.
- The grace timers that kill a process after it was asked to end: the end of a process is a step that may come at any time while it runs.
- Wall-clock time, delays as durations, and whether the startup, heartbeat, deadline and stability timers are active: each may fire at any moment, which allows more runs than the program has.
- The wrap-around of the 64-bit counters of generations, request ids and heartbeat nonces after 2^64 steps.
- Signals to the user interface other than results and failures of requests, the texts of details, and re-entrant calls from connected slots.
- The bootstrap token, the environment of the process and the search for the runtime, beyond the ways a launch can end.
- The stored result of a handshake that is handed out again after a recovery.
- The generated transport decoder: it answers rejected, unmatched or matched; JSON parsing and PCRE internals are not part of this model.
- The wrappers that build the parameters of each request and the table that maps results to signals: a delivered result is one step; results of the checked methods carry whether their check passed.
- The sizes of outgoing frames: a write that exceeds the limit is one of its outcomes.
- The reason codes of rejected handshakes and messages.
- validateInitializeError: every error reply to initialize is rejected whatever it says.
- IsValidEvent: the table that ties event names to item kinds, roles and states (src/agent_runtime_client.cpp:1247-1331) would only add cases to the validity that the identity results assume.
- SentUnderItsCapabilities: the platform is the one that the rules were asked for when the request was written; the history of requests does not record which one that was.
- PrintEvent: members that a valid event only ever holds as scalars are printed by the same printer as the item data, which orders the keys of an object by UTF-8 bytes and not by UTF-16 units.
- KeyOrder.Sorted: the order of the keys is that of their UTF-8 bytes; the sorting algorithm of the C++ library is replaced by taking out the least key again and again.
- EventIdentityBinds: assumes that the canonical text takes fewer than 2^64 bytes, as every byte array of the program does.
- PageIdentityBinds: claimed for string inline texts only, because a null one shares the hash of the empty text.
- StrictDescendantOrder: assumes of the case folding of the platform only that it maps the separator, and nothing else, to the separator.
- HandleData: the text of a chunk is given with the chunk; a character cut in two by a chunk boundary decodes to replacement characters in the program, which is not part of this model.
- Lone surrogates in JSON texts, which Qt replaces when it converts them to UTF-8.
- Snapshot and workspace-edit identities, timeline windows, retention gaps and subscription results: further validators of the same kind.
- The HTTP forwarding of the gateway, its routes, headers, error classification and request metadata.
- The remaining header-only components (authority slots, ledgers, journals, stores and plans), whose bodies are not part of this model, and the delegating sources beside them.
- The cryptographic strength of SHA-256 beyond injectivity.
