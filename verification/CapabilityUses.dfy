// The inverse of requiredCapabilitiesForMethod (src/agent_runtime_client.cpp): for each capability
// exactly the calls that need it.

module CapabilityUses {
  import opened Options
  import opened Capabilities

  // ---------------------------------------------------------------------
  // The table: which methods each capability is there for

  /** The uses of the capabilities for the runtime itself. */
  predicate IsRuntimeUse(verb: Method, capability: Capability) {
    match capability
    case RuntimeHealth => verb.RuntimeHealth?
    case RuntimeHeartbeatOutOfBand => verb.RuntimeHeartbeat?
    case RuntimeDegradations => verb.RuntimeDegradations?
    case _ => false
  }

  lemma RuntimeUsed(verb: Method, capability: Capability)
    requires IsRuntimeUse(verb, capability)
    ensures RuntimeEntry(verb) == Some(capability)
  {
  }

  lemma RuntimeOnly(verb: Method, capability: Capability)
    requires RuntimeEntry(verb) == Some(capability)
    ensures IsRuntimeUse(verb, capability)
  {
  }

  lemma RuntimeExactly(verb: Method, capability: Capability)
    ensures RuntimeEntry(verb) == Some(capability) <==> IsRuntimeUse(verb, capability)
  {
    if IsRuntimeUse(verb, capability) {
      RuntimeUsed(verb, capability);
    } else if RuntimeEntry(verb) == Some(capability) {
      RuntimeOnly(verb, capability);
    }
  }

  /** The uses of the capabilities for models and the restart. */
  predicate IsModelUse(verb: Method, capability: Capability) {
    match capability
    case ModelCatalogReadOnly => verb.ModelCatalog?
    case ModelCatalogCacheReadOnly => verb.ModelCatalogCache?
    case ModelCatalogRefreshStatusReadOnly => verb.ModelCatalogRefreshStatus?
    case ModelCapabilityCheckReadOnly => verb.ModelCapabilityCheck?
    case ModelProfileReadOnly => verb.ModelProfileList? || verb.ModelProfileRead?
    case RuntimeRestart => verb.RuntimeRestart?
    case _ => false
  }

  lemma ModelUsed(verb: Method, capability: Capability)
    requires IsModelUse(verb, capability)
    ensures ModelEntry(verb) == Some(capability)
  {
  }

  lemma ModelOnly(verb: Method, capability: Capability)
    requires ModelEntry(verb) == Some(capability)
    ensures IsModelUse(verb, capability)
  {
  }

  lemma ModelExactly(verb: Method, capability: Capability)
    ensures ModelEntry(verb) == Some(capability) <==> IsModelUse(verb, capability)
  {
    if IsModelUse(verb, capability) {
      ModelUsed(verb, capability);
    } else if ModelEntry(verb) == Some(capability) {
      ModelOnly(verb, capability);
    }
  }

  /** The uses of the capabilities for projects. */
  predicate IsProjectUse(verb: Method, capability: Capability) {
    match capability
    case ProjectList => verb.ProjectList?
    case ProjectNavigationPersistent => verb.ProjectNavigation?
    case ProjectOpen => verb.ProjectOpen?
    case ProjectRelinkExplicit => verb.ProjectRelink?
    case ProjectTrustReview => verb.ProjectTrustReview?
    case ProjectTrustAcknowledge => verb.ProjectTrustAcknowledge?
    case ProjectRootsScoped => verb.ProjectRootList? || verb.ProjectRootAdd? || verb.ProjectRootRemove?
    case _ => false
  }

  lemma ProjectUsed(verb: Method, capability: Capability)
    requires IsProjectUse(verb, capability)
    ensures ProjectEntry(verb) == Some(capability)
  {
  }

  lemma ProjectOnly(verb: Method, capability: Capability)
    requires ProjectEntry(verb) == Some(capability)
    ensures IsProjectUse(verb, capability)
  {
  }

  lemma ProjectExactly(verb: Method, capability: Capability)
    ensures ProjectEntry(verb) == Some(capability) <==> IsProjectUse(verb, capability)
  {
    if IsProjectUse(verb, capability) {
      ProjectUsed(verb, capability);
    } else if ProjectEntry(verb) == Some(capability) {
      ProjectOnly(verb, capability);
    }
  }

  /** The uses of the capabilities for sessions. */
  predicate IsSessionUse(verb: Method, capability: Capability) {
    match capability
    case SessionResume => verb.SessionResume?
    case SessionFork => verb.SessionFork?
    case SessionList => verb.SessionList?
    case SessionSearchBranch => verb.SessionSearch?
    case SessionMutationAcknowledgements =>
      || verb.SessionMutationAcknowledgements? || verb.MutationAcknowledgementConsume?
    case SessionMetadataManage => verb.SessionTitle? || verb.SessionArchive? || verb.SessionUnarchive?
    case _ => false
  }

  lemma SessionUsed(verb: Method, capability: Capability)
    requires IsSessionUse(verb, capability)
    ensures SessionEntry(verb) == Some(capability)
  {
  }

  lemma SessionOnly(verb: Method, capability: Capability)
    requires SessionEntry(verb) == Some(capability)
    ensures IsSessionUse(verb, capability)
  {
  }

  lemma SessionExactly(verb: Method, capability: Capability)
    ensures SessionEntry(verb) == Some(capability) <==> IsSessionUse(verb, capability)
  {
    if IsSessionUse(verb, capability) {
      SessionUsed(verb, capability);
    } else if SessionEntry(verb) == Some(capability) {
      SessionOnly(verb, capability);
    }
  }

  /** The uses of the capabilities for deletion, export, import, retention and history. */
  predicate IsHistoryUse(verb: Method, capability: Capability) {
    match capability
    case SessionDeletionTwoPhase =>
      || verb.SessionDeletePreview? || verb.SessionDeleteSchedule? || verb.SessionDeletionStatus?
    case SessionDeletionUndo => verb.SessionDeleteUndo?
    case SessionPortableExport => verb.SessionExportPreview? || verb.SessionExport?
    case SessionPortableImport => verb.SessionImportPreview? || verb.SessionImport?
    case RetentionPolicyManage => verb.RetentionPolicyRead? || verb.RetentionPolicySet? || verb.RetentionPolicyRemove?
    case RetentionMaintenanceHostTriggered => verb.RetentionMaintenanceRun?
    case SessionHistoryPaginated => verb.SessionRead?
    case _ => false
  }

  lemma HistoryUsed(verb: Method, capability: Capability)
    requires IsHistoryUse(verb, capability)
    ensures HistoryEntry(verb) == Some(capability)
  {
  }

  lemma HistoryOnly(verb: Method, capability: Capability)
    requires HistoryEntry(verb) == Some(capability)
    ensures IsHistoryUse(verb, capability)
  {
  }

  lemma HistoryExactly(verb: Method, capability: Capability)
    ensures HistoryEntry(verb) == Some(capability) <==> IsHistoryUse(verb, capability)
  {
    if IsHistoryUse(verb, capability) {
      HistoryUsed(verb, capability);
    } else if HistoryEntry(verb) == Some(capability) {
      HistoryOnly(verb, capability);
    }
  }

  /** The uses of the capabilities for timelines and background work. */
  predicate IsTimelineUse(verb: Method, capability: Capability) {
    match capability
    case TimelineReplayFixedWatermark => verb.TimelineSync?
    case TimelineSnapshotCurrent => verb.TimelineSnapshot?
    case TimelineSubscriptionFixedWatermark =>
      || verb.TimelineSubscribe? || verb.TimelineSubscriptionSync? || verb.TimelineSubscriptionSnapshot?
      || verb.TimelineSubscriptionActivate?
    case BackgroundNotificationOutboxReadOnly => verb.SessionBackgroundNotifications?
    case BackgroundJobRecoveryInspect => verb.SessionBackgroundRecovery?
    case _ => false
  }

  lemma TimelineUsed(verb: Method, capability: Capability)
    requires IsTimelineUse(verb, capability)
    ensures TimelineEntry(verb) == Some(capability)
  {
  }

  lemma TimelineOnly(verb: Method, capability: Capability)
    requires TimelineEntry(verb) == Some(capability)
    ensures IsTimelineUse(verb, capability)
  {
  }

  lemma TimelineExactly(verb: Method, capability: Capability)
    ensures TimelineEntry(verb) == Some(capability) <==> IsTimelineUse(verb, capability)
  {
    if IsTimelineUse(verb, capability) {
      TimelineUsed(verb, capability);
    } else if TimelineEntry(verb) == Some(capability) {
      TimelineOnly(verb, capability);
    }
  }

  /** The uses of the capabilities for recovery, operations and checkpoints. */
  predicate IsRecoveryUse(verb: Method, capability: Capability) {
    match capability
    case RuntimeProjectionRecoveryStatus => verb.RuntimeProjectionRecoveryStatus?
    case SessionRecoveryStatus => verb.SessionRecoveryStatus?
    case OperationReconciliationStatus => verb.OperationStatus?
    case OperationReconciliationProbe => verb.OperationProbe?
    case OperationReconciliation => verb.OperationReconcile?
    case SessionCompactionCheckpointReview =>
      || verb.SessionCompactionCheckpointCreate? || verb.SessionCompactionCheckpointRead?
      || verb.SessionCompactionCheckpointRevise?
    case RuntimeRecoveryStatus => verb.RuntimeRecoveryStatus?
    case _ => false
  }

  lemma RecoveryUsed(verb: Method, capability: Capability)
    requires IsRecoveryUse(verb, capability)
    ensures RecoveryEntry(verb) == Some(capability)
  {
  }

  lemma RecoveryOnly(verb: Method, capability: Capability)
    requires RecoveryEntry(verb) == Some(capability)
    ensures IsRecoveryUse(verb, capability)
  {
  }

  lemma RecoveryExactly(verb: Method, capability: Capability)
    ensures RecoveryEntry(verb) == Some(capability) <==> IsRecoveryUse(verb, capability)
  {
    if IsRecoveryUse(verb, capability) {
      RecoveryUsed(verb, capability);
    } else if RecoveryEntry(verb) == Some(capability) {
      RecoveryOnly(verb, capability);
    }
  }

  /** The uses of the capabilities for turns and pinned contexts. */
  predicate IsTurnUse(verb: Method, capability: Capability) {
    match capability
    case TurnCancelInterrupt => verb.TurnCancel?
    case TurnSteerSameTurn => verb.TurnSteer?
    case TurnContextInspect => verb.TurnContextInspect?
    case WorkspacePinnedContextStore => verb.WorkspacePinnedContextList?
    case WorkspacePinnedContextManage => verb.WorkspacePinnedContextSave? || verb.WorkspacePinnedContextRemove?
    case _ => false
  }

  lemma TurnUsed(verb: Method, capability: Capability)
    requires IsTurnUse(verb, capability)
    ensures TurnEntry(verb) == Some(capability)
  {
  }

  lemma TurnOnly(verb: Method, capability: Capability)
    requires TurnEntry(verb) == Some(capability)
    ensures IsTurnUse(verb, capability)
  {
  }

  lemma TurnExactly(verb: Method, capability: Capability)
    ensures TurnEntry(verb) == Some(capability) <==> IsTurnUse(verb, capability)
  {
    if IsTurnUse(verb, capability) {
      TurnUsed(verb, capability);
    } else if TurnEntry(verb) == Some(capability) {
      TurnOnly(verb, capability);
    }
  }

  /** The uses of the capabilities for images and files. */
  predicate IsFileUse(verb: Method, capability: Capability) {
    match capability
    case WorkspaceImageImportUser => verb.WorkspaceImageImportUser?
    case WorkspaceImagePreview => verb.WorkspaceImageRead?
    case WorkspaceList => verb.WorkspaceList?
    case WorkspaceReadText => verb.WorkspaceRead?
    case WorkspaceSaveUserText => verb.WorkspaceSaveUserText?
    case WorkspaceMetadata => verb.WorkspaceMetadata?
    case _ => false
  }

  lemma FileUsed(verb: Method, capability: Capability)
    requires IsFileUse(verb, capability)
    ensures FileEntry(verb) == Some(capability)
  {
  }

  lemma FileOnly(verb: Method, capability: Capability)
    requires FileEntry(verb) == Some(capability)
    ensures IsFileUse(verb, capability)
  {
  }

  lemma FileExactly(verb: Method, capability: Capability)
    ensures FileEntry(verb) == Some(capability) <==> IsFileUse(verb, capability)
  {
    if IsFileUse(verb, capability) {
      FileUsed(verb, capability);
    } else if FileEntry(verb) == Some(capability) {
      FileOnly(verb, capability);
    }
  }

  /** The uses of the capabilities for Git and search. */
  predicate IsGitUse(verb: Method, capability: Capability) {
    match capability
    case WorkspaceGitStatus => verb.WorkspaceGitStatus?
    case WorkspaceGitQueryReadOnly =>
      || verb.WorkspaceGitOverview? || verb.WorkspaceGitLog? || verb.WorkspaceGitCommit?
      || verb.WorkspaceGitDiff?
    case WorkspaceGitContextReadOnly => verb.WorkspaceGitContextRead?
    case WorkspaceSearchBounded => verb.WorkspaceSearch?
    case WorkspaceSearchCancel => verb.WorkspaceSearchCancel?
    case _ => false
  }

  lemma GitUsed(verb: Method, capability: Capability)
    requires IsGitUse(verb, capability)
    ensures GitEntry(verb) == Some(capability)
  {
  }

  lemma GitOnly(verb: Method, capability: Capability)
    requires GitEntry(verb) == Some(capability)
    ensures IsGitUse(verb, capability)
  {
  }

  lemma GitExactly(verb: Method, capability: Capability)
    ensures GitEntry(verb) == Some(capability) <==> IsGitUse(verb, capability)
  {
    if IsGitUse(verb, capability) {
      GitUsed(verb, capability);
    } else if GitEntry(verb) == Some(capability) {
      GitOnly(verb, capability);
    }
  }

  /** The uses of the capabilities for index and language servers. */
  predicate IsCodeUse(verb: Method, capability: Capability) {
    match capability
    case WorkspaceIndexTreeSitter => verb.WorkspaceIndex?
    case WorkspaceIndexCancel => verb.WorkspaceIndexCancel?
    case WorkspaceRepositoryMapBudgeted => verb.WorkspaceRepositoryMap?
    case WorkspaceLanguageServers =>
      || verb.WorkspaceLanguageServers? || verb.WorkspaceLanguageServerStart?
      || verb.WorkspaceLanguageServerStop?
    case WorkspaceDefinition => verb.WorkspaceDefinition?
    case WorkspaceReferences => verb.WorkspaceReferences?
    case _ => false
  }

  lemma CodeUsed(verb: Method, capability: Capability)
    requires IsCodeUse(verb, capability)
    ensures CodeEntry(verb) == Some(capability)
  {
  }

  lemma CodeOnly(verb: Method, capability: Capability)
    requires CodeEntry(verb) == Some(capability)
    ensures IsCodeUse(verb, capability)
  {
  }

  lemma CodeExactly(verb: Method, capability: Capability)
    ensures CodeEntry(verb) == Some(capability) <==> IsCodeUse(verb, capability)
  {
    if IsCodeUse(verb, capability) {
      CodeUsed(verb, capability);
    } else if CodeEntry(verb) == Some(capability) {
      CodeOnly(verb, capability);
    }
  }

  /** The uses of the capabilities for diagnostics, edits and watching. */
  predicate IsEditUse(verb: Method, capability: Capability) {
    match capability
    case WorkspaceDiagnosticsLanguageServer => verb.WorkspaceDiagnostics?
    case WorkspaceDiagnosticsObserved => verb.WorkspaceObservedDiagnostics?
    case WorkspaceDiagnosticsRawReference => verb.WorkspaceDiagnosticsRaw?
    case WorkspaceEditPreviewReadOnly => verb.WorkspaceEditPreview? || verb.WorkspaceEditArtifactRead?
    case WorkspaceEditProposalReadOnly =>
      || verb.WorkspaceEditProposalLatest? || verb.WorkspaceEditProposalRead?
      || verb.WorkspaceEditProposalArtifactRead?
    case WorkspaceWatchPoll => verb.WorkspaceWatch? || verb.WorkspaceWatchPoll?
    case _ => false
  }

  lemma EditUsed(verb: Method, capability: Capability)
    requires IsEditUse(verb, capability)
    ensures EditEntry(verb) == Some(capability)
  {
  }

  lemma EditOnly(verb: Method, capability: Capability)
    requires EditEntry(verb) == Some(capability)
    ensures IsEditUse(verb, capability)
  {
  }

  lemma EditExactly(verb: Method, capability: Capability)
    ensures EditEntry(verb) == Some(capability) <==> IsEditUse(verb, capability)
  {
    if IsEditUse(verb, capability) {
      EditUsed(verb, capability);
    } else if EditEntry(verb) == Some(capability) {
      EditOnly(verb, capability);
    }
  }

  /** The uses of the capabilities for terminals and artifacts. */
  predicate IsTerminalUse(verb: Method, capability: Capability) {
    match capability
    case TerminalLifecycleNamed =>
      || verb.TerminalOpenUser? || verb.TerminalList? || verb.TerminalAttach? || verb.TerminalRead?
      || verb.TerminalInputUser? || verb.TerminalResize? || verb.TerminalSignalUser? || verb.TerminalStopUser?
      || verb.TerminalRestartUser? || verb.TerminalRemoveUser?
    case TerminalExcerptRead => verb.TerminalExcerptRead?
    case ArtifactCommandOutputBounded => verb.ArtifactReadCommandOutput? || verb.ArtifactReadCommandOutputPage?
    case _ => false
  }

  lemma TerminalsOpened(verb: Method)
    requires || verb.TerminalOpenUser? || verb.TerminalList? || verb.TerminalAttach? || verb.TerminalRead?
             || verb.TerminalInputUser?
    ensures TerminalEntry(verb) == Some(TerminalLifecycleNamed)
  {
  }

  lemma TerminalsDriven(verb: Method)
    requires || verb.TerminalResize? || verb.TerminalSignalUser? || verb.TerminalStopUser? || verb.TerminalRestartUser?
             || verb.TerminalRemoveUser?
    ensures TerminalEntry(verb) == Some(TerminalLifecycleNamed)
  {
  }

  lemma TerminalUsed(verb: Method, capability: Capability)
    requires IsTerminalUse(verb, capability)
    ensures TerminalEntry(verb) == Some(capability)
  {
    if capability == TerminalLifecycleNamed {
      if verb.TerminalOpenUser? || verb.TerminalList? || verb.TerminalAttach? || verb.TerminalRead? || verb.TerminalInputUser? {
        TerminalsOpened(verb);
      } else {
        TerminalsDriven(verb);
      }
    }
  }

  lemma TerminalOnly(verb: Method, capability: Capability)
    requires TerminalEntry(verb) == Some(capability)
    ensures IsTerminalUse(verb, capability)
  {
  }

  lemma TerminalExactly(verb: Method, capability: Capability)
    ensures TerminalEntry(verb) == Some(capability) <==> IsTerminalUse(verb, capability)
  {
    if IsTerminalUse(verb, capability) {
      TerminalUsed(verb, capability);
    } else if TerminalEntry(verb) == Some(capability) {
      TerminalOnly(verb, capability);
    }
  }

  // No method has two entries.

  lemma RuntimeApart(verb: Method)
    requires RuntimeEntry(verb).Some?
    ensures ModelEntry(verb).None? && ProjectEntry(verb).None? && SessionEntry(verb).None?
            && HistoryEntry(verb).None? && TimelineEntry(verb).None? && RecoveryEntry(verb).None?
            && TurnEntry(verb).None? && FileEntry(verb).None? && GitEntry(verb).None? && CodeEntry(verb).None?
            && EditEntry(verb).None? && TerminalEntry(verb).None?
  {
  }

  lemma ModelApart(verb: Method)
    requires ModelEntry(verb).Some?
    ensures ProjectEntry(verb).None? && SessionEntry(verb).None? && HistoryEntry(verb).None?
            && TimelineEntry(verb).None? && RecoveryEntry(verb).None? && TurnEntry(verb).None?
            && FileEntry(verb).None? && GitEntry(verb).None? && CodeEntry(verb).None? && EditEntry(verb).None?
            && TerminalEntry(verb).None?
  {
  }

  lemma ProjectApart(verb: Method)
    requires ProjectEntry(verb).Some?
    ensures SessionEntry(verb).None? && HistoryEntry(verb).None? && TimelineEntry(verb).None?
            && RecoveryEntry(verb).None? && TurnEntry(verb).None? && FileEntry(verb).None?
            && GitEntry(verb).None? && CodeEntry(verb).None? && EditEntry(verb).None? && TerminalEntry(verb).None?
  {
  }

  lemma SessionApart(verb: Method)
    requires SessionEntry(verb).Some?
    ensures HistoryEntry(verb).None? && TimelineEntry(verb).None? && RecoveryEntry(verb).None?
            && TurnEntry(verb).None? && FileEntry(verb).None? && GitEntry(verb).None? && CodeEntry(verb).None?
            && EditEntry(verb).None? && TerminalEntry(verb).None?
  {
  }

  lemma HistoryApart(verb: Method)
    requires HistoryEntry(verb).Some?
    ensures TimelineEntry(verb).None? && RecoveryEntry(verb).None? && TurnEntry(verb).None?
            && FileEntry(verb).None? && GitEntry(verb).None? && CodeEntry(verb).None? && EditEntry(verb).None?
            && TerminalEntry(verb).None?
  {
  }

  lemma TimelineApart(verb: Method)
    requires TimelineEntry(verb).Some?
    ensures RecoveryEntry(verb).None? && TurnEntry(verb).None? && FileEntry(verb).None? && GitEntry(verb).None?
            && CodeEntry(verb).None? && EditEntry(verb).None? && TerminalEntry(verb).None?
  {
  }

  lemma RecoveryApart(verb: Method)
    requires RecoveryEntry(verb).Some?
    ensures TurnEntry(verb).None? && FileEntry(verb).None? && GitEntry(verb).None? && CodeEntry(verb).None?
            && EditEntry(verb).None? && TerminalEntry(verb).None?
  {
  }

  lemma TurnApart(verb: Method)
    requires TurnEntry(verb).Some?
    ensures FileEntry(verb).None? && GitEntry(verb).None? && CodeEntry(verb).None? && EditEntry(verb).None?
            && TerminalEntry(verb).None?
  {
  }

  lemma FileApart(verb: Method)
    requires FileEntry(verb).Some?
    ensures GitEntry(verb).None? && CodeEntry(verb).None? && EditEntry(verb).None? && TerminalEntry(verb).None?
  {
  }

  lemma GitApart(verb: Method)
    requires GitEntry(verb).Some?
    ensures CodeEntry(verb).None? && EditEntry(verb).None? && TerminalEntry(verb).None?
  {
  }

  lemma CodeApart(verb: Method)
    requires CodeEntry(verb).Some?
    ensures EditEntry(verb).None? && TerminalEntry(verb).None?
  {
  }

  lemma EditApart(verb: Method)
    requires EditEntry(verb).Some?
    ensures TerminalEntry(verb).None?
  {
  }

  /** The methods that a capability is there for, and no others. */
  predicate IsUse(verb: Method, capability: Capability) {
    || IsRuntimeUse(verb, capability) || IsModelUse(verb, capability) || IsProjectUse(verb, capability)
    || IsSessionUse(verb, capability) || IsHistoryUse(verb, capability) || IsTimelineUse(verb, capability)
    || IsRecoveryUse(verb, capability) || IsTurnUse(verb, capability) || IsFileUse(verb, capability)
    || IsGitUse(verb, capability) || IsCodeUse(verb, capability) || IsEditUse(verb, capability)
    || IsTerminalUse(verb, capability)
  }

  /** The table says of a method that it needs a capability exactly when the capability is there for it. */
  lemma EntryExactly(verb: Method, capability: Capability)
    ensures TableEntry(verb) == Some(capability) <==> IsUse(verb, capability)
  {
    RuntimeExactly(verb, capability);
    ModelExactly(verb, capability);
    ProjectExactly(verb, capability);
    SessionExactly(verb, capability);
    HistoryExactly(verb, capability);
    TimelineExactly(verb, capability);
    RecoveryExactly(verb, capability);
    TurnExactly(verb, capability);
    FileExactly(verb, capability);
    GitExactly(verb, capability);
    CodeExactly(verb, capability);
    EditExactly(verb, capability);
    TerminalExactly(verb, capability);
    if RuntimeEntry(verb).Some? {
      RuntimeApart(verb);
    } else if ModelEntry(verb).Some? {
      ModelApart(verb);
    } else if ProjectEntry(verb).Some? {
      ProjectApart(verb);
    } else if SessionEntry(verb).Some? {
      SessionApart(verb);
    } else if HistoryEntry(verb).Some? {
      HistoryApart(verb);
    } else if TimelineEntry(verb).Some? {
      TimelineApart(verb);
    } else if RecoveryEntry(verb).Some? {
      RecoveryApart(verb);
    } else if TurnEntry(verb).Some? {
      TurnApart(verb);
    } else if FileEntry(verb).Some? {
      FileApart(verb);
    } else if GitEntry(verb).Some? {
      GitApart(verb);
    } else if CodeEntry(verb).Some? {
      CodeApart(verb);
    } else if EditEntry(verb).Some? {
      EditApart(verb);
    }
  }

  // ---------------------------------------------------------------------
  // Everything else: which calls need a capability besides

  predicate TakesContexts(verb: Method) {
    verb.TurnStart? || verb.TurnContextInspect?
  }

  predicate ReadsProposals(verb: Method) {
    || verb.WorkspaceEditProposalLatest? || verb.WorkspaceEditProposalRead? || verb.WorkspaceEditProposalArtifactRead?
  }

  predicate UsesTerminal(verb: Method) {
    || verb.TerminalOpenUser? || verb.TerminalInputUser? || verb.TerminalResize? || verb.TerminalSignalUser?
    || verb.TerminalStopUser? || verb.TerminalRestartUser? || verb.TerminalExcerptRead?
  }

  /** The calls that need a capability for something else than the table. */
  predicate NeedsBesides(call: Call, platform: Platform, capability: Capability) {
    || (capability == SessionChat && call.verb.SessionStart? && call.chat)
    || (capability == SessionWorkPreview && call.verb.SessionStart? && !call.chat)
    || (capability == TimelineStreaming && call.verb.TurnStart?)
    || (capability == Capability.SessionMutationAcknowledgements && call.verb.TurnStart?)
    || (capability == TurnContextStructured && TakesContexts(call.verb) && call.hasContext)
    || (capability == TurnContextPinnedSelected && TakesContexts(call.verb) && call.hasPinnedContext)
    || (capability == PermissionReadOnly && ReadsProposals(call.verb))
    || (capability == TerminalPtyMacosUserInitiated && UsesTerminal(call.verb) && platform.MacOs?)
    || (capability == TerminalConptyWindowsUserInitiated && UsesTerminal(call.verb) && platform.Windows?)
    || (capability == UnsupportedTerminalPlatform && UsesTerminal(call.verb) && platform.OtherOs?)
    || (capability == TerminalStopOutOfBand && call.verb.TerminalStopUser?)
  }

  lemma SameClasses(verb: Method)
    ensures TakesContext(verb) <==> TakesContexts(verb)
    ensures OnProposals(verb) <==> ReadsProposals(verb)
    ensures DrivesTerminal(verb) <==> UsesTerminal(verb)
  {
  }

  /** What is needed besides, from the five questions that are asked of a call. */
  lemma ExtrasFrom(call: Call, platform: Platform, contexts: bool, proposals: bool, terminal: bool, stop: bool,
      capability: Capability)
    requires contexts == TakesContext(call.verb) && proposals == OnProposals(call.verb)
    requires terminal == DrivesTerminal(call.verb) && stop == call.verb.TerminalStopUser?
    ensures capability in Extras(call, platform) <==>
              || (capability == TurnContextStructured && contexts && call.hasContext)
              || (capability == PermissionReadOnly && proposals)
              || (capability == TurnContextPinnedSelected && contexts && call.hasPinnedContext)
              || (capability == TerminalPlatform(platform) && terminal)
              || (capability == TerminalStopOutOfBand && stop)
  {
  }

  lemma PlatformExactly(platform: Platform, capability: Capability)
    ensures capability == TerminalPlatform(platform) <==>
              || (capability == TerminalPtyMacosUserInitiated && platform.MacOs?)
              || (capability == TerminalConptyWindowsUserInitiated && platform.Windows?)
              || (capability == UnsupportedTerminalPlatform && platform.OtherOs?)
  {
  }

  lemma ExtraExactly(call: Call, platform: Platform, capability: Capability)
    requires !call.verb.TurnStart? && !call.verb.SessionStart?
    ensures capability in Extras(call, platform) <==> NeedsBesides(call, platform, capability)
  {
    SameClasses(call.verb);
    PlatformExactly(platform, capability);
    ExtrasFrom(call, platform, TakesContext(call.verb), OnProposals(call.verb), DrivesTerminal(call.verb),
               call.verb.TerminalStopUser?, capability);
  }

  lemma TurnNeeds(call: Call, platform: Platform, capability: Capability)
    requires call.verb.TurnStart?
    ensures capability in RequiredWith(None, call, platform) <==> NeedsBesides(call, platform, capability)
  {
    ExtrasFrom(call, platform, true, false, false, false, capability);
  }

  lemma SessionNeeds(call: Call, platform: Platform, capability: Capability)
    requires call.verb.SessionStart?
    ensures capability in RequiredWith(None, call, platform) <==> NeedsBesides(call, platform, capability)
  {
  }

  /** The methods without a table entry that are not refused altogether. */
  predicate Untabled(verb: Method) {
    verb.Shutdown? || verb.SessionStart? || verb.TurnStart?
  }

  lemma UntabledHaveNoEntry(verb: Method)
    requires Untabled(verb)
    ensures TableEntry(verb).None?
  {
  }

  lemma UnknownHasNoEntry(verb: Method)
    requires verb.Other?
    ensures TableEntry(verb).None?
  {
  }

  /** Two methods that exist and are refused altogether. */
  lemma RefusedHaveNoEntry(verb: Method)
    requires verb.RuntimeRecoveryExport? || verb.TerminalCloseUser?
    ensures TableEntry(verb).None?
  {
  }

  lemma SavingIsUse(verb: Method)
    requires verb.WorkspaceSaveUserText?
    ensures IsUse(verb, Capability.WorkspaceSaveUserText)
  {
    assert IsFileUse(verb, Capability.WorkspaceSaveUserText);
  }

  lemma BesidesHaveAnEntry(call: Call, platform: Platform, capability: Capability)
    requires NeedsBesides(call, platform, capability) && !Untabled(call.verb)
    ensures TableEntry(call.verb).Some?
  {
    if call.verb.TurnContextInspect? {
      assert TurnEntry(call.verb).Some?;
    } else if ReadsProposals(call.verb) {
      assert EditEntry(call.verb).Some?;
    } else {
      assert TerminalEntry(call.verb).Some?;
    }
  }

  lemma NeededWith(entry: Option<Capability>, call: Call, platform: Platform, capability: Capability)
    requires Untabled(call.verb) ==> entry.None?
    requires entry.None? && !Untabled(call.verb) ==> !NeedsBesides(call, platform, capability)
    requires capability != UnknownMethod
    ensures capability in RequiredWith(entry, call, platform)
            <==> entry == Some(capability) || NeedsBesides(call, platform, capability)
  {
    if call.verb.TurnStart? {
      TurnNeeds(call, platform, capability);
    } else if call.verb.SessionStart? {
      SessionNeeds(call, platform, capability);
    } else {
      ExtraExactly(call, platform, capability);
    }
  }

  /**
   * A call needs a capability if and only if its method is one of those the capability is there for,
   * as listed above, or the call is one of those listed besides.
   */
  lemma NeededExactly(call: Call, platform: Platform, capability: Capability)
    requires capability != UnknownMethod
    ensures capability in Required(call, platform) <==> IsUse(call.verb, capability) || NeedsBesides(call, platform, capability)
  {
    EntryExactly(call.verb, capability);
    if Untabled(call.verb) {
      UntabledHaveNoEntry(call.verb);
    } else if NeedsBesides(call, platform, capability) {
      BesidesHaveAnEntry(call, platform, capability);
    }
    NeededWith(TableEntry(call.verb), call, platform, capability);
  }

  // ---------------------------------------------------------------------
  // Classes of methods

  /** The methods that the emergency policy suspends: whatever begins or alters something, and the heartbeat. */
  predicate Suspended(verb: Method) {
    || verb.SessionStart? || verb.TurnStart? || verb.RuntimeHeartbeat? || verb.RuntimeRestart?
    || verb.ProjectNavigation? || verb.ProjectOpen? || verb.ProjectRelink? || verb.ProjectTrustAcknowledge?
    || verb.ProjectRootAdd? || verb.ProjectRootRemove? || verb.SessionResume? || verb.SessionFork?
    || verb.MutationAcknowledgementConsume? || verb.SessionTitle? || verb.SessionArchive? || verb.SessionUnarchive?
    || verb.SessionDeleteSchedule? || verb.SessionDeleteUndo? || verb.SessionImportPreview? || verb.SessionImport?
    || verb.RetentionPolicyRead? || verb.RetentionPolicySet? || verb.RetentionPolicyRemove?
    || verb.RetentionMaintenanceRun? || verb.OperationReconcile? || verb.SessionCompactionCheckpointCreate?
    || verb.SessionCompactionCheckpointRevise? || verb.TurnSteer? || verb.WorkspacePinnedContextSave?
    || verb.WorkspacePinnedContextRemove? || verb.WorkspaceImageImportUser? || verb.WorkspaceSaveUserText?
    || verb.WorkspaceLanguageServerStart? || verb.WorkspaceLanguageServerStop? || verb.WorkspaceEditPreview?
    || verb.WorkspaceWatch? || verb.WorkspaceWatchPoll? || verb.TerminalOpenUser? || verb.TerminalInputUser?
    || verb.TerminalResize? || verb.TerminalSignalUser? || verb.TerminalRestartUser? || verb.Other?
  }

  lemma SuspendedStop(verb: Method)
    requires Suspended(verb)
    ensures !EmergencyAllowed(verb)
  {
  }

  lemma OthersGoOn(verb: Method)
    requires !Suspended(verb)
    ensures EmergencyAllowed(verb)
  {
  }

  lemma EmergencySuspends(verb: Method)
    ensures EmergencyAllowed(verb) <==> !Suspended(verb)
  {
    if Suspended(verb) {
      SuspendedStop(verb);
    } else {
      OthersGoOn(verb);
    }
  }

  /** The methods with which a reconnect restores timelines, terminals and sessions. */
  predicate Restores(verb: Method) {
    || verb.TimelineSync? || verb.TimelineSnapshot? || verb.TimelineSubscribe? || verb.TimelineSubscriptionSync?
    || verb.TimelineSubscriptionSnapshot? || verb.TimelineSubscriptionActivate?
    || verb.TerminalList? || verb.TerminalAttach? || verb.TerminalRead? || verb.SessionRead?
    || verb.SessionMutationAcknowledgements? || verb.MutationAcknowledgementConsume?
    || verb.WorkspaceEditProposalLatest? || verb.WorkspaceEditProposalRead? || verb.RuntimeHeartbeat? || verb.Shutdown?
  }

  lemma ReconnectRestores(verb: Method)
    ensures IsReconnectRecovery(verb) <==> Restores(verb)
  {
  }
}
