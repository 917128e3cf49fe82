/** Backend identities, capability declarations and the registry that supplies them. */
module Capabilities {
  import opened Prelude

  datatype Backend = Awww | Mpvpaper | Swaybg | Feh | LinuxWallpaperEngine | Unsupported

  datatype Evidence = CliVerified | RuntimeVerified | ImplementationLimit | Unverified | Unknown

  datatype OutputTargetMode = AllDisplaysOnly | NamedOutputs | SingleOutputPerProcess | RepeatedScreenRootPairs

  datatype AllDisplaysTargeting = OmitMeansAll | OneProcessPerOutput | SingleProcessMultiOutput

  datatype StopScope =
    | SharedDaemonPerOutput
    | NoPersistentProcess
    | DaemonWide
    | AllMatchingProcesses
    | TrackedProcessPerOutput
    | TrackedProcessShared

  datatype SameTargetReplacement = InPlace | ManagedHandoff | StopThenApply

  datatype MultiInstanceSupport =
    | OneShot
    | SharedDaemon
    | SeparateProcessesUnverified
    | SeparateProcessesVerified
    | SingleProcessUnverified

  datatype Capability = Capability(
    backend: Backend,
    outputTargetMode: OutputTargetMode,
    outputTargetEvidence: Evidence,
    allDisplays: AllDisplaysTargeting,
    stopScope: StopScope,
    multiInstance: MultiInstanceSupport,
    sameTargetReplacement: SameTargetReplacement)
  {
    predicate VerifiedNamedOutputTargeting(): (r: bool)
      ensures !r <==> outputTargetMode.AllDisplaysOnly? || outputTargetEvidence in {RuntimeVerified,
                ImplementationLimit, Unverified, Unknown}
    {
      outputTargetEvidence.CliVerified? && !outputTargetMode.AllDisplaysOnly?
    }

    /** A stop of it may end renderers on outputs nobody named, unless it is scoped to outputs or nothing runs. */
    predicate StopMayAffectNonTargetOutputs(): (r: bool)
      ensures !r <==> stopScope in {SharedDaemonPerOutput, NoPersistentProcess, TrackedProcessPerOutput}
    {
      stopScope.DaemonWide? || stopScope.AllMatchingProcesses? || stopScope.TrackedProcessShared?
    }

    predicate RequiresStopBeforeSameTargetApply() {
      sameTargetReplacement.StopThenApply?
    }

    /** Two instances, or two clients of one daemon, serve different outputs side by side. */
    predicate InstancesCoexist() {
      multiInstance.SharedDaemon? || multiInstance.SeparateProcessesVerified?
    }
  }

  /** What is known about two backends drawing on different outputs. */
  datatype PairSupport = Independent | NiriTransparentAwww | NiriIndependentProcesses | UnverifiedPair

  /**
   * The live session: whether the niri socket is set and whether it exists, whether awww is of the
   * 0.12 series, whether its daemon listens, and whether that daemon is opaque or has its own namespace.
   */
  datatype Session = Session(
    niriSocketSet: bool,
    niriSession: bool,
    awww012: bool,
    awwwListens: bool,
    awwwUnfit: bool)
  {
    /** An output released by awww becomes transparent. */
    predicate ReleasesTransparently() {
      niriSocketSet && awww012 && (awwwListens ==> !awwwUnfit)
    }

    predicate Meets(support: PairSupport) {
      match support
      case Independent => true
      case NiriTransparentAwww => ReleasesTransparently()
      case NiriIndependentProcesses => niriSession
      case UnverifiedPair => false
    }
  }

  /** The tables that are consulted; every theorem about a registry holds for every content of them. */
  datatype Registry = Registry(
    capabilityFor: Backend -> Option<Capability>,
    pairSupport: (Backend, Backend) -> PairSupport)
  {
    /** No session permits the pair: the planner refuses it. */
    predicate PairUnverified(left: Backend, right: Backend) {
      pairSupport(left, right).UnverifiedPair?
    }

    /** The session permits the pair: the transaction insists on it. */
    predicate Coexist(session: Session, left: Backend, right: Backend) {
      session.Meets(pairSupport(left, right))
    }
  }

  /** One group is one invocation of the renderer. */
  function ApplyOutputGroups(targeting: AllDisplaysTargeting, outputs: seq<string>): (groups: seq<seq<string>>)
    ensures Flatten(groups) == outputs
    ensures forall g :: g in groups ==> g != []
    ensures targeting.OneProcessPerOutput? ==> forall g :: g in groups ==> |g| == 1
    ensures !targeting.OneProcessPerOutput? ==> |groups| <= 1
  {
    match targeting
    case OneProcessPerOutput =>
      if outputs == [] then [] else [[outputs[0]]] + ApplyOutputGroups(targeting, outputs[1..])
    case _ =>
      if outputs == [] then [] else
        assert [outputs][1..] == [];
        [outputs]
  }
}
