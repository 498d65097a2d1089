// Which initialize results are valid (src/agent_runtime_client.cpp, validateInitializeResult and
// validateCapabilityArray): the four kinds of backend, capability by capability.

module Handshakes {
  import opened Capabilities

  /** The capabilities are listed once each, and there are at most 128 of them. */
  predicate IsListing(stable: seq<Capability>) {
    && 1 <= |stable| <= 128
    && (forall i, j | 0 <= i < |stable| && 0 <= j < |stable| && stable[i] == stable[j] :: i == j)
    && UnsupportedTerminalPlatform !in stable && UnknownMethod !in stable
  }

  /** A backend of the given kind names itself by its own capability and by no other kind's. */
  predicate IsMarked(stable: seq<Capability>, kind: Capability) {
    && (RuntimePreview in stable <==> kind == RuntimePreview)
    && (RuntimeCodexAppServer in stable <==> kind == RuntimeCodexAppServer)
    && (RuntimeRecoveryReadOnly in stable <==> kind == RuntimeRecoveryReadOnly)
    && (RuntimeUnavailable in stable <==> kind == RuntimeUnavailable)
  }

  /** The preview backend, which never restarts, steers, cancels or archives. */
  predicate IsPreview(r: InitializeResult) {
    && r.adapter == PreviewAdapter && r.status == Ready && IsMarked(r.stable, RuntimePreview)
    && PermissionReadOnly in r.stable
    && Capability.RuntimeRestart !in r.stable && TimelineCommandStructuredReadOnly !in r.stable
    && TurnCancelInterrupt !in r.stable && TurnSteerSameTurn !in r.stable
    && SessionProviderLifecycleArchive !in r.stable && SessionProviderLifecycleUnarchive !in r.stable
    && SessionProviderLifecycleListRead !in r.stable
  }

  predicate IsCodex(r: InitializeResult) {
    && r.adapter == CodexAdapter && r.status == Ready && IsMarked(r.stable, RuntimeCodexAppServer)
    && PermissionReadOnly in r.stable
  }

  /** The backend that could not be started. */
  predicate IsUnavailable(r: InitializeResult) {
    && r.adapter == CodexAdapter && r.status == Unavailable && RuntimeUnavailable in r.stable
    && forall i | 0 <= i < |r.stable| ::
         || r.stable[i] == RuntimeUnavailable || r.stable[i] == Capability.RuntimeRestart
         || r.stable[i] == Capability.RuntimeHealth || r.stable[i] == RuntimeHeartbeatOutOfBand
         || r.stable[i] == Capability.RuntimeDegradations
  }

  /** The runtime that only helps to recover, and only reads. */
  predicate IsRecovery(r: InitializeResult) {
    && r.adapter == RecoveryAdapter && r.status == ReadOnlyRecovery
    && RuntimeRecoveryReadOnly in r.stable && PermissionReadOnly in r.stable
    && forall i | 0 <= i < |r.stable| ::
         || r.stable[i] == RuntimeRecoveryReadOnly || r.stable[i] == Capability.RuntimeHealth
         || r.stable[i] == RuntimeHeartbeatOutOfBand || r.stable[i] == Capability.RuntimeDegradations
         || r.stable[i] == ModelCatalogReadOnly || r.stable[i] == ModelCatalogRefreshStatusReadOnly
         || r.stable[i] == ModelCapabilityCheckReadOnly || r.stable[i] == Capability.RuntimeRecoveryStatus
         || r.stable[i] == RuntimeRecoveryDiagnosticExport || r.stable[i] == PermissionReadOnly
  }

  lemma ListingIsValid(stable: seq<Capability>)
    ensures ValidCapabilityArray(stable) <==> IsListing(stable)
  {
    if IsListing(stable) {
      forall i | 0 <= i < |stable|
        ensures IsDeclared(stable[i])
      {
        assert stable[i] in stable;
      }
    }
    if ValidCapabilityArray(stable) {
      assert forall i | 0 <= i < |stable| :: IsDeclared(stable[i]);
    }
  }

  lemma MembersAreListed(r: InitializeResult)
    ensures forall capability :: capability in Stable(r) <==> capability in r.stable
  {
  }

  lemma ReadyExactly(r: InitializeResult)
    requires r.status.Ready? && r.versionKnown
    ensures BackendMarkers(Stable(r)) == 1 && ValidBackend(r, Stable(r)) && PermissionReadOnly in Stable(r)
       <==> IsPreview(r) || IsCodex(r)
  {
    MembersAreListed(r);
    assert Stable(r) !! NOT_IN_PREVIEW <==> forall capability | capability in NOT_IN_PREVIEW :: capability !in r.stable;
  }

  lemma WithinUnavailable(r: InitializeResult)
    ensures IsUnavailable(r) <==>
              r.adapter == CodexAdapter && r.status == Unavailable && RuntimeUnavailable in r.stable
                   && Stable(r) <= WHEN_UNAVAILABLE
  {
    if Stable(r) <= WHEN_UNAVAILABLE {
      assert forall i | 0 <= i < |r.stable| :: r.stable[i] in Stable(r);
    }
  }

  lemma WithinRecovery(r: InitializeResult)
    ensures IsRecovery(r) <==>
              && r.adapter == RecoveryAdapter && r.status == ReadOnlyRecovery
              && RuntimeRecoveryReadOnly in r.stable && PermissionReadOnly in r.stable && Stable(r) <= WHEN_RECOVERING
  {
    if Stable(r) <= WHEN_RECOVERING {
      assert forall i | 0 <= i < |r.stable| :: r.stable[i] in Stable(r);
    }
  }

  lemma OneMarker(negotiated: set<Capability>)
    ensures negotiated <= WHEN_UNAVAILABLE ==> (BackendMarkers(negotiated) == 1 <==> RuntimeUnavailable in negotiated)
    ensures negotiated <= WHEN_RECOVERING ==> (BackendMarkers(negotiated) == 1 <==> RuntimeRecoveryReadOnly in negotiated)
  {
  }

  lemma UnavailableExactly(r: InitializeResult)
    requires r.status.Unavailable? && r.versionKnown
    ensures BackendMarkers(Stable(r)) == 1 && ValidBackend(r, Stable(r)) <==> IsUnavailable(r)
  {
    MembersAreListed(r);
    WithinUnavailable(r);
    OneMarker(Stable(r));
  }

  lemma RecoveryExactly(r: InitializeResult)
    requires r.status.ReadOnlyRecovery? && r.versionKnown
    ensures BackendMarkers(Stable(r)) == 1 && ValidBackend(r, Stable(r)) <==> IsRecovery(r)
  {
    MembersAreListed(r);
    WithinRecovery(r);
    OneMarker(Stable(r));
  }

  /** A result is valid exactly when it identifies itself, keeps the frame limit and is one of the four backends. */
  lemma ValidExactly(r: InitializeResult)
    ensures ValidInitialize(r) <==>
              && r.identified && r.versionKnown && IsListing(r.stable) && r.frameLimit == 4194304
              && (IsPreview(r) || IsCodex(r) || IsUnavailable(r) || IsRecovery(r))
  {
    ListingIsValid(r.stable);
    if r.versionKnown {
      match r.status {
        case Ready => ReadyExactly(r);
        case Unavailable => UnavailableExactly(r);
        case ReadOnlyRecovery => RecoveryExactly(r);
        case OtherStatus =>
      }
    }
  }
}
