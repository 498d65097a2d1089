// What a negotiated connection may ask for: capabilities, methods and the admission rules
// between them (src/agent_runtime_client.cpp, declaredCapabilities, validateInitializeResult,
// requiredCapabilitiesForMethod, isLivenessControlMethod, isReconnectRecoveryMethod and
// emergencyRequestAllowed).

module Capabilities {
  import opened Options

  /** The declared capabilities, and the two names that no runtime can declare. */
  datatype Capability =
    | ArtifactCommandOutputBounded | BackgroundJobRecoveryInspect | BackgroundNotificationOutboxReadOnly
    | ModelCapabilityCheckReadOnly | ModelCatalogCacheReadOnly | ModelCatalogReadOnly
    | ModelCatalogRefreshStatusReadOnly | ModelProfileReadOnly | OperationReconciliation
    | OperationReconciliationProbe | OperationReconciliationStatus | PermissionReadOnly | ProjectList
    | ProjectNavigationPersistent | ProjectOpen | ProjectRelinkExplicit | ProjectRootsScoped
    | ProjectTrustAcknowledge | ProjectTrustReview | RetentionMaintenanceHostTriggered | RetentionPolicyManage
    | RuntimeCodexAppServer | RuntimeDegradations | RuntimeHealth | RuntimeHeartbeatOutOfBand | RuntimePreview
    | RuntimeProjectionRecoveryStatus | RuntimeRecoveryDiagnosticExport | RuntimeRecoveryReadOnly
    | RuntimeRecoveryStatus | RuntimeRestart | RuntimeUnavailable | SessionChat
    | SessionCompactionCheckpointReview | SessionDeletionTwoPhase | SessionDeletionUndo | SessionFork
    | SessionHistoryPaginated | SessionList | SessionMutationAcknowledgements | SessionMetadataManage
    | SessionPortableExport | SessionPortableImport | SessionProviderLifecycleArchive
    | SessionProviderLifecycleListRead | SessionProviderLifecycleUnarchive | SessionRecoveryStatus
    | SessionResume | SessionSearchBranch | SessionWorkPreview | SessionWorkspaceBindingReadOnly
    | TerminalConptyWindowsUserInitiated | TerminalEnvironmentSessionScoped | TerminalExcerptRead
    | TerminalLifecycleNamed | TerminalPtyMacosUserInitiated | TerminalPtyUnsupported | TerminalStopOutOfBand
    | TimelineCommandStructuredReadOnly | TimelineReplayFixedWatermark | TimelineSnapshotCurrent
    | TimelineSubscriptionFixedWatermark | TimelineStreaming | TurnCancelInterrupt | TurnContextInspect
    | TurnContextManifest | TurnContextPinnedSelected | TurnContextStructured | TurnSteerSameTurn
    | WorkspaceDefinition | WorkspaceDiagnosticsCommandOutput | WorkspaceDiagnosticsLanguageServer
    | WorkspaceDiagnosticsObserved | WorkspaceDiagnosticsRawReference | WorkspaceEditPreviewReadOnly
    | WorkspaceEditProposalReadOnly | WorkspaceGitContextReadOnly | WorkspaceGitQueryReadOnly
    | WorkspaceGitStatus | WorkspaceImageImportUser | WorkspaceImagePreview | WorkspaceIndexCancel
    | WorkspaceIndexTreeSitter | WorkspaceInstructionsDiscovery | WorkspaceLanguageServers | WorkspaceList
    | WorkspaceMetadata | WorkspacePinnedContextManage | WorkspacePinnedContextStore | WorkspaceReadText
    | WorkspaceReferences | WorkspaceRepositoryMapBudgeted | WorkspaceSaveUserText | WorkspaceSearchBounded
    | WorkspaceSearchCancel | WorkspaceWatchPoll
    | UnsupportedTerminalPlatform | UnknownMethod

  datatype Method =
    | Initialize | Shutdown | SessionStart | TurnStart | RuntimeHealth | RuntimeHeartbeat | RuntimeDegradations
    | ModelCatalog | ModelCatalogCache | ModelCatalogRefreshStatus | ModelCapabilityCheck | ModelProfileList
    | ModelProfileRead | RuntimeRestart | ProjectList | ProjectNavigation | ProjectOpen | ProjectRelink
    | ProjectTrustReview | ProjectTrustAcknowledge | ProjectRootList | ProjectRootAdd | ProjectRootRemove
    | SessionResume | SessionFork | SessionList | SessionSearch | SessionMutationAcknowledgements
    | MutationAcknowledgementConsume | SessionTitle | SessionArchive | SessionUnarchive | SessionDeletePreview
    | SessionDeleteSchedule | SessionDeleteUndo | SessionDeletionStatus | SessionExportPreview | SessionExport
    | SessionImportPreview | SessionImport | RetentionPolicyRead | RetentionPolicySet | RetentionPolicyRemove
    | RetentionMaintenanceRun | SessionRead | TimelineSync | TimelineSnapshot | TimelineSubscribe
    | TimelineSubscriptionSync | TimelineSubscriptionSnapshot | TimelineSubscriptionActivate
    | SessionBackgroundNotifications | SessionBackgroundRecovery | RuntimeProjectionRecoveryStatus
    | SessionRecoveryStatus | OperationStatus | OperationProbe | OperationReconcile
    | SessionCompactionCheckpointCreate | SessionCompactionCheckpointRead | SessionCompactionCheckpointRevise
    | RuntimeRecoveryStatus | TurnCancel | TurnSteer | TurnContextInspect | WorkspacePinnedContextList
    | WorkspacePinnedContextSave | WorkspacePinnedContextRemove | WorkspaceImageImportUser | WorkspaceImageRead
    | WorkspaceList | WorkspaceRead | WorkspaceSaveUserText | WorkspaceMetadata | WorkspaceGitStatus
    | WorkspaceGitOverview | WorkspaceGitLog | WorkspaceGitCommit | WorkspaceGitDiff | WorkspaceGitContextRead
    | WorkspaceSearch | WorkspaceSearchCancel | WorkspaceIndex | WorkspaceIndexCancel | WorkspaceRepositoryMap
    | WorkspaceLanguageServers | WorkspaceLanguageServerStart | WorkspaceLanguageServerStop
    | WorkspaceDefinition | WorkspaceReferences | WorkspaceDiagnostics | WorkspaceObservedDiagnostics
    | WorkspaceDiagnosticsRaw | WorkspaceEditPreview | WorkspaceEditArtifactRead | WorkspaceEditProposalLatest
    | WorkspaceEditProposalRead | WorkspaceEditProposalArtifactRead | WorkspaceWatch | WorkspaceWatchPoll
    | TerminalOpenUser | TerminalList | TerminalAttach | TerminalRead | TerminalInputUser | TerminalResize
    | TerminalSignalUser | TerminalStopUser | TerminalRestartUser | TerminalRemoveUser | TerminalExcerptRead
    | ArtifactReadCommandOutput | ArtifactReadCommandOutputPage | RuntimeRecoveryExport | TerminalCloseUser
    | Other(name: string)

  datatype Platform = MacOs | Windows | OtherOs

  /** A method with the parts of its parameters that the rules look at. */
  datatype Call = Call(verb: Method, chat: bool, hasContext: bool, hasPinnedContext: bool)

  function Plain(verb: Method): Call {
    Call(verb, false, false, false)
  }

  // ---------------------------------------------------------------------
  // requiredCapabilitiesForMethod

  // The table of single capabilities, in its order.

  /** For the runtime itself. */
  function RuntimeEntry(verb: Method): Option<Capability> {
    match verb
    case RuntimeHealth => Some(Capability.RuntimeHealth)
    case RuntimeHeartbeat => Some(Capability.RuntimeHeartbeatOutOfBand)
    case RuntimeDegradations => Some(Capability.RuntimeDegradations)
    case _ => None
  }

  /** For models and the restart. */
  function ModelEntry(verb: Method): Option<Capability> {
    match verb
    case ModelCatalog => Some(Capability.ModelCatalogReadOnly)
    case ModelCatalogCache => Some(Capability.ModelCatalogCacheReadOnly)
    case ModelCatalogRefreshStatus => Some(Capability.ModelCatalogRefreshStatusReadOnly)
    case ModelCapabilityCheck => Some(Capability.ModelCapabilityCheckReadOnly)
    case ModelProfileList | ModelProfileRead => Some(Capability.ModelProfileReadOnly)
    case RuntimeRestart => Some(Capability.RuntimeRestart)
    case _ => None
  }

  /** For projects. */
  function ProjectEntry(verb: Method): Option<Capability> {
    match verb
    case ProjectList => Some(Capability.ProjectList)
    case ProjectNavigation => Some(Capability.ProjectNavigationPersistent)
    case ProjectOpen => Some(Capability.ProjectOpen)
    case ProjectRelink => Some(Capability.ProjectRelinkExplicit)
    case ProjectTrustReview => Some(Capability.ProjectTrustReview)
    case ProjectTrustAcknowledge => Some(Capability.ProjectTrustAcknowledge)
    case ProjectRootList | ProjectRootAdd | ProjectRootRemove => Some(Capability.ProjectRootsScoped)
    case _ => None
  }

  /** For sessions. */
  function SessionEntry(verb: Method): Option<Capability> {
    match verb
    case SessionResume => Some(Capability.SessionResume)
    case SessionFork => Some(Capability.SessionFork)
    case SessionList => Some(Capability.SessionList)
    case SessionSearch => Some(Capability.SessionSearchBranch)
    case SessionMutationAcknowledgements | MutationAcknowledgementConsume =>
      Some(Capability.SessionMutationAcknowledgements)
    case SessionTitle | SessionArchive | SessionUnarchive => Some(Capability.SessionMetadataManage)
    case _ => None
  }

  /** For deletion, export, import, retention and history. */
  function HistoryEntry(verb: Method): Option<Capability> {
    match verb
    case SessionDeletePreview | SessionDeleteSchedule | SessionDeletionStatus =>
      Some(Capability.SessionDeletionTwoPhase)
    case SessionDeleteUndo => Some(Capability.SessionDeletionUndo)
    case SessionExportPreview | SessionExport => Some(Capability.SessionPortableExport)
    case SessionImportPreview | SessionImport => Some(Capability.SessionPortableImport)
    case RetentionPolicyRead | RetentionPolicySet | RetentionPolicyRemove => Some(Capability.RetentionPolicyManage)
    case RetentionMaintenanceRun => Some(Capability.RetentionMaintenanceHostTriggered)
    case SessionRead => Some(Capability.SessionHistoryPaginated)
    case _ => None
  }

  /** For timelines and background work. */
  function TimelineEntry(verb: Method): Option<Capability> {
    match verb
    case TimelineSync => Some(Capability.TimelineReplayFixedWatermark)
    case TimelineSnapshot => Some(Capability.TimelineSnapshotCurrent)
    case TimelineSubscribe | TimelineSubscriptionSync | TimelineSubscriptionSnapshot |
         TimelineSubscriptionActivate =>
      Some(Capability.TimelineSubscriptionFixedWatermark)
    case SessionBackgroundNotifications => Some(Capability.BackgroundNotificationOutboxReadOnly)
    case SessionBackgroundRecovery => Some(Capability.BackgroundJobRecoveryInspect)
    case _ => None
  }

  /** For recovery, operations and checkpoints. */
  function RecoveryEntry(verb: Method): Option<Capability> {
    match verb
    case RuntimeProjectionRecoveryStatus => Some(Capability.RuntimeProjectionRecoveryStatus)
    case SessionRecoveryStatus => Some(Capability.SessionRecoveryStatus)
    case OperationStatus => Some(Capability.OperationReconciliationStatus)
    case OperationProbe => Some(Capability.OperationReconciliationProbe)
    case OperationReconcile => Some(Capability.OperationReconciliation)
    case SessionCompactionCheckpointCreate | SessionCompactionCheckpointRead | SessionCompactionCheckpointRevise =>
      Some(Capability.SessionCompactionCheckpointReview)
    case RuntimeRecoveryStatus => Some(Capability.RuntimeRecoveryStatus)
    case _ => None
  }

  /** For turns and pinned contexts. */
  function TurnEntry(verb: Method): Option<Capability> {
    match verb
    case TurnCancel => Some(Capability.TurnCancelInterrupt)
    case TurnSteer => Some(Capability.TurnSteerSameTurn)
    case TurnContextInspect => Some(Capability.TurnContextInspect)
    case WorkspacePinnedContextList => Some(Capability.WorkspacePinnedContextStore)
    case WorkspacePinnedContextSave | WorkspacePinnedContextRemove => Some(Capability.WorkspacePinnedContextManage)
    case _ => None
  }

  /** For images and files. */
  function FileEntry(verb: Method): Option<Capability> {
    match verb
    case WorkspaceImageImportUser => Some(Capability.WorkspaceImageImportUser)
    case WorkspaceImageRead => Some(Capability.WorkspaceImagePreview)
    case WorkspaceList => Some(Capability.WorkspaceList)
    case WorkspaceRead => Some(Capability.WorkspaceReadText)
    case WorkspaceSaveUserText => Some(Capability.WorkspaceSaveUserText)
    case WorkspaceMetadata => Some(Capability.WorkspaceMetadata)
    case _ => None
  }

  /** For Git and search. */
  function GitEntry(verb: Method): Option<Capability> {
    match verb
    case WorkspaceGitStatus => Some(Capability.WorkspaceGitStatus)
    case WorkspaceGitOverview | WorkspaceGitLog | WorkspaceGitCommit | WorkspaceGitDiff =>
      Some(Capability.WorkspaceGitQueryReadOnly)
    case WorkspaceGitContextRead => Some(Capability.WorkspaceGitContextReadOnly)
    case WorkspaceSearch => Some(Capability.WorkspaceSearchBounded)
    case WorkspaceSearchCancel => Some(Capability.WorkspaceSearchCancel)
    case _ => None
  }

  /** For index and language servers. */
  function CodeEntry(verb: Method): Option<Capability> {
    match verb
    case WorkspaceIndex => Some(Capability.WorkspaceIndexTreeSitter)
    case WorkspaceIndexCancel => Some(Capability.WorkspaceIndexCancel)
    case WorkspaceRepositoryMap => Some(Capability.WorkspaceRepositoryMapBudgeted)
    case WorkspaceLanguageServers | WorkspaceLanguageServerStart | WorkspaceLanguageServerStop =>
      Some(Capability.WorkspaceLanguageServers)
    case WorkspaceDefinition => Some(Capability.WorkspaceDefinition)
    case WorkspaceReferences => Some(Capability.WorkspaceReferences)
    case _ => None
  }

  /** For diagnostics, edits and watching. */
  function EditEntry(verb: Method): Option<Capability> {
    match verb
    case WorkspaceDiagnostics => Some(Capability.WorkspaceDiagnosticsLanguageServer)
    case WorkspaceObservedDiagnostics => Some(Capability.WorkspaceDiagnosticsObserved)
    case WorkspaceDiagnosticsRaw => Some(Capability.WorkspaceDiagnosticsRawReference)
    case WorkspaceEditPreview | WorkspaceEditArtifactRead => Some(Capability.WorkspaceEditPreviewReadOnly)
    case WorkspaceEditProposalLatest | WorkspaceEditProposalRead | WorkspaceEditProposalArtifactRead =>
      Some(Capability.WorkspaceEditProposalReadOnly)
    case WorkspaceWatch | WorkspaceWatchPoll => Some(Capability.WorkspaceWatchPoll)
    case _ => None
  }

  /** For terminals and artifacts. */
  function TerminalEntry(verb: Method): Option<Capability> {
    match verb
    case TerminalOpenUser | TerminalList | TerminalAttach | TerminalRead | TerminalInputUser | TerminalResize |
         TerminalSignalUser | TerminalStopUser | TerminalRestartUser | TerminalRemoveUser =>
      Some(Capability.TerminalLifecycleNamed)
    case TerminalExcerptRead => Some(Capability.TerminalExcerptRead)
    case ArtifactReadCommandOutput | ArtifactReadCommandOutputPage => Some(Capability.ArtifactCommandOutputBounded)
    case _ => None
  }

  function Or(first: Option<Capability>, second: Option<Capability>): Option<Capability> {
    if first.Some? then first else second
  }

  /** The table. */
  function TableEntry(verb: Method): Option<Capability> {
    Or(RuntimeEntry(verb),
    Or(ModelEntry(verb),
    Or(ProjectEntry(verb),
    Or(SessionEntry(verb),
    Or(HistoryEntry(verb),
    Or(TimelineEntry(verb),
    Or(RecoveryEntry(verb),
    Or(TurnEntry(verb),
    Or(FileEntry(verb),
    Or(GitEntry(verb),
    Or(CodeEntry(verb),
    Or(EditEntry(verb), TerminalEntry(verb)))))))))))))
  }

  function TerminalPlatform(platform: Platform): Capability {
    match platform
    case MacOs => TerminalPtyMacosUserInitiated
    case Windows => TerminalConptyWindowsUserInitiated
    case OtherOs => UnsupportedTerminalPlatform
  }

  predicate OnProposals(verb: Method) {
    verb.WorkspaceEditProposalLatest? || verb.WorkspaceEditProposalRead? || verb.WorkspaceEditProposalArtifactRead?
  }

  predicate TakesContext(verb: Method) {
    verb.TurnStart? || verb.TurnContextInspect?
  }

  predicate DrivesTerminal(verb: Method) {
    || verb.TerminalOpenUser? || verb.TerminalInputUser? || verb.TerminalResize? || verb.TerminalSignalUser?
    || verb.TerminalStopUser? || verb.TerminalRestartUser? || verb.TerminalExcerptRead?
  }

  /** The capabilities that a call needs beyond its table entry. */
  function Extras(call: Call, platform: Platform): set<Capability> {
    (if TakesContext(call.verb) && call.hasContext then {TurnContextStructured} else {})
    + (if OnProposals(call.verb) then {PermissionReadOnly} else {})
    + (if TakesContext(call.verb) && call.hasPinnedContext then {TurnContextPinnedSelected} else {})
    + (if DrivesTerminal(call.verb) then {TerminalPlatform(platform)} else {})
    + (if call.verb.TerminalStopUser? then {TerminalStopOutOfBand} else {})
  }

  /** What a call needs, given its table entry. */
  function RequiredWith(entry: Option<Capability>, call: Call, platform: Platform): set<Capability> {
    if call.verb.Shutdown? then {}
    else if call.verb.SessionStart? then {if call.chat then SessionChat else SessionWorkPreview}
    else if call.verb.TurnStart? then
      {TimelineStreaming, Capability.SessionMutationAcknowledgements} + Extras(call, platform)
    else
      match entry
      case None => {UnknownMethod}
      case Some(capability) => {capability} + Extras(call, platform)
  }

  function Required(call: Call, platform: Platform): set<Capability> {
    RequiredWith(TableEntry(call.verb), call, platform)
  }

  // ---------------------------------------------------------------------
  // Classes of methods

  /** isLivenessControlMethod */
  predicate IsLivenessControl(verb: Method) {
    || verb.Initialize? || verb.Shutdown? || verb.RuntimeHeartbeat? || verb.TurnCancel? || verb.TurnSteer?
    || verb.TerminalStopUser?
  }

  /** isReconnectRecoveryMethod */
  predicate IsReconnectRecovery(verb: Method) {
    match verb
    case RuntimeHeartbeat | SessionRead | Shutdown | TerminalAttach | TerminalList | TerminalRead |
         TimelineSnapshot | TimelineSync | TimelineSubscribe | TimelineSubscriptionSync |
         TimelineSubscriptionSnapshot | TimelineSubscriptionActivate | SessionMutationAcknowledgements |
         MutationAcknowledgementConsume | WorkspaceEditProposalLatest | WorkspaceEditProposalRead => true
    case _ => false
  }

  /** timelineSubscriptionIdentityStageForMethod names a stage for these. */
  predicate IsSubscription(verb: Method) {
    || verb.TimelineSubscribe? || verb.TimelineSubscriptionSync? || verb.TimelineSubscriptionSnapshot?
    || verb.TimelineSubscriptionActivate?
  }

  /** emergencyRequestAllowed */
  predicate EmergencyAllowed(verb: Method) {
    match verb
    case Initialize | Shutdown | RuntimeHealth | RuntimeDegradations | RuntimeProjectionRecoveryStatus |
         RuntimeRecoveryStatus | RuntimeRecoveryExport | ModelCatalog | ModelCatalogCache |
         ModelCatalogRefreshStatus | ModelCapabilityCheck | ModelProfileList | ModelProfileRead | ProjectList |
         ProjectRootList | ProjectTrustReview | SessionList | SessionSearch | SessionRead | SessionDeletePreview |
         SessionDeletionStatus | SessionExportPreview | SessionExport | SessionMutationAcknowledgements |
         SessionBackgroundNotifications | SessionBackgroundRecovery | SessionRecoveryStatus |
         SessionCompactionCheckpointRead | TimelineSync | TimelineSnapshot | TimelineSubscribe |
         TimelineSubscriptionSync | TimelineSubscriptionSnapshot | TimelineSubscriptionActivate |
         OperationStatus | OperationProbe | TurnCancel | TurnContextInspect | WorkspacePinnedContextList |
         WorkspaceImageRead | WorkspaceList | WorkspaceRead | WorkspaceMetadata | WorkspaceGitStatus |
         WorkspaceGitOverview | WorkspaceGitLog | WorkspaceGitCommit | WorkspaceGitDiff |
         WorkspaceGitContextRead | WorkspaceSearch | WorkspaceSearchCancel | WorkspaceIndex |
         WorkspaceIndexCancel | WorkspaceRepositoryMap | WorkspaceLanguageServers | WorkspaceDefinition |
         WorkspaceReferences | WorkspaceDiagnostics | WorkspaceObservedDiagnostics | WorkspaceDiagnosticsRaw |
         WorkspaceEditArtifactRead | WorkspaceEditProposalLatest | WorkspaceEditProposalRead |
         WorkspaceEditProposalArtifactRead | TerminalList | TerminalAttach | TerminalRead | TerminalExcerptRead |
         TerminalStopUser | TerminalCloseUser | TerminalRemoveUser | ArtifactReadCommandOutput |
         ArtifactReadCommandOutputPage => true
    case _ => false
  }

  // ---------------------------------------------------------------------
  // validateInitializeResult

  /** The only frame limit a handshake admits, and the limit before it. */
  const MAXIMUM_FRAME_BYTES := 4 * 1024 * 1024

  const MAXIMUM_CAPABILITIES := 128

  datatype Adapter = PreviewAdapter | CodexAdapter | RecoveryAdapter | OtherAdapter

  datatype Status = Ready | Unavailable | ReadOnlyRecovery | OtherStatus

  /**
   * The result of the initialize request. `identified` says that everything not listed here is as
   * required: the fields, the protocol versions, the names of runtime and platform, the absence of
   * experimental capabilities and the transport security.
   */
  datatype InitializeResult = InitializeResult(
    identified: bool,
    adapter: Adapter,
    versionKnown: bool,
    status: Status,
    stable: seq<Capability>,
    frameLimit: int)

  predicate IsDeclared(capability: Capability) {
    !capability.UnsupportedTerminalPlatform? && !capability.UnknownMethod?
  }

  /** validateCapabilityArray */
  predicate ValidCapabilityArray(stable: seq<Capability>) {
    && 0 < |stable| <= MAXIMUM_CAPABILITIES
    && (forall i | 0 <= i < |stable| :: IsDeclared(stable[i]))
    && forall i, j | 0 <= i < j < |stable| :: stable[i] != stable[j]
  }

  function Marker(negotiated: set<Capability>, capability: Capability): int {
    if capability in negotiated then 1 else 0
  }

  function BackendMarkers(negotiated: set<Capability>): int {
    Marker(negotiated, RuntimePreview) + Marker(negotiated, RuntimeCodexAppServer)
    + Marker(negotiated, RuntimeRecoveryReadOnly) + Marker(negotiated, RuntimeUnavailable)
  }

  const WHEN_UNAVAILABLE: set<Capability> := {
    RuntimeUnavailable, Capability.RuntimeRestart, Capability.RuntimeHealth, RuntimeHeartbeatOutOfBand,
    Capability.RuntimeDegradations
  }

  const WHEN_RECOVERING: set<Capability> := {
    RuntimeRecoveryReadOnly, Capability.RuntimeHealth, RuntimeHeartbeatOutOfBand, Capability.RuntimeDegradations,
    ModelCatalogReadOnly, ModelCatalogRefreshStatusReadOnly, ModelCapabilityCheckReadOnly,
    Capability.RuntimeRecoveryStatus, RuntimeRecoveryDiagnosticExport, PermissionReadOnly
  }

  const NOT_IN_PREVIEW: set<Capability> := {
    Capability.RuntimeRestart, TimelineCommandStructuredReadOnly, TurnCancelInterrupt, TurnSteerSameTurn,
    SessionProviderLifecycleArchive, SessionProviderLifecycleUnarchive, SessionProviderLifecycleListRead
  }

  predicate ValidBackend(result: InitializeResult, negotiated: set<Capability>) {
    match result.adapter
    case PreviewAdapter =>
      result.versionKnown && result.status.Ready? && RuntimePreview in negotiated && negotiated !! NOT_IN_PREVIEW
    case CodexAdapter =>
      && result.versionKnown
      && (|| (result.status.Ready? && RuntimeCodexAppServer in negotiated)
          || (result.status.Unavailable? && RuntimeUnavailable in negotiated && negotiated <= WHEN_UNAVAILABLE))
    case RecoveryAdapter =>
      && result.versionKnown && result.status.ReadOnlyRecovery?
      && RuntimeRecoveryReadOnly in negotiated && PermissionReadOnly in negotiated
      && negotiated <= WHEN_RECOVERING
    case OtherAdapter => false
  }

  function Stable(result: InitializeResult): set<Capability> {
    set capability | capability in result.stable
  }

  predicate ValidInitialize(result: InitializeResult) {
    var negotiated := Stable(result);
    && result.identified
    && ValidCapabilityArray(result.stable)
    && result.frameLimit == MAXIMUM_FRAME_BYTES
    && BackendMarkers(negotiated) == 1
    && ValidBackend(result, negotiated)
    && (result.status.Ready? ==> PermissionReadOnly in negotiated)
  }

  // ---------------------------------------------------------------------
  // What the rules admit

  /** The methods of a connection in read-only recovery. */
  predicate InRecovery(verb: Method) {
    match verb
    case RuntimeHealth | RuntimeHeartbeat | RuntimeDegradations | ModelCatalog | ModelCatalogRefreshStatus |
         ModelCapabilityCheck | RuntimeRecoveryStatus | Shutdown => true
    case _ => false
  }

  /** The methods of a connection whose backend is unavailable. */
  predicate WhileUnavailable(verb: Method) {
    match verb
    case RuntimeRestart | RuntimeHealth | RuntimeHeartbeat | RuntimeDegradations | Shutdown => true
    case _ => false
  }

  /** The capability that decides whether a call is admitted where no extra one is negotiated. */
  function Deciding(call: Call): Option<Capability> {
    if call.verb.Shutdown? then None
    else if call.verb.SessionStart? then Some(if call.chat then SessionChat else SessionWorkPreview)
    else if call.verb.TurnStart? then Some(TimelineStreaming)
    else if TableEntry(call.verb).None? then Some(UnknownMethod)
    else TableEntry(call.verb)
  }

  lemma DecidingIsRequired(call: Call, platform: Platform)
    ensures Deciding(call).Some? ==> Deciding(call).value in Required(call, platform)
    ensures InRecovery(call.verb) || WhileUnavailable(call.verb)
            ==> Required(call, platform) == if call.verb.Shutdown? then {} else {Deciding(call).value}
  {
  }

  lemma DecidingInRecovery(call: Call)
    ensures InRecovery(call.verb) <==> Deciding(call).None? || Deciding(call).value in WHEN_RECOVERING
  {
  }

  lemma DecidingWhileUnavailable(call: Call)
    ensures WhileUnavailable(call.verb) <==> Deciding(call).None? || Deciding(call).value in WHEN_UNAVAILABLE
  {
  }

  /** With the capabilities of read-only recovery, exactly its eight methods are admitted. */
  lemma RecoveryAdmits(call: Call, platform: Platform)
    ensures Required(call, platform) <= WHEN_RECOVERING <==> InRecovery(call.verb)
  {
    DecidingIsRequired(call, platform);
    DecidingInRecovery(call);
  }

  /** With those of an unavailable backend, exactly its five. */
  lemma UnavailableAdmits(call: Call, platform: Platform)
    ensures Required(call, platform) <= WHEN_UNAVAILABLE <==> WhileUnavailable(call.verb)
  {
    DecidingIsRequired(call, platform);
    DecidingWhileUnavailable(call);
  }
}
