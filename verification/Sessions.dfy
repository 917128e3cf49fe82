/**
 * Renderers side by side in a live session: what starting or stopping one does to its siblings, and the
 * tables the program ships with.
 */
module Sessions {
  import opened Prelude
  import opened Capabilities
  import opened Renderers
  import opened Planner
  import opened PlannerTheorems
  import opened ApplyPipeline
  import opened ApplySteps
  import opened CleanStarts

  /** Started on one output, the requested backend leaves a sibling that shows `b` alone. */
  predicate SideBySide(s: Session, reg: Registry, cap: Capability, b: Backend) {
    if b == cap.backend then cap.InstancesCoexist() else reg.Coexist(s, cap.backend, b)
  }

  /** A desktop that behaves no worse than the declarations say and the session permits. */
  ghost predicate HonestIn(p: Physics, s: Session, reg: Registry, cap: Capability) {
    && (forall b :: p.wide(b) && (b == cap.backend || reg.capabilityFor(b).Some?) ==> DeclaredWide(reg, cap, b))
    && forall b :: p.disturbs(cap.backend, b) ==> !SideBySide(s, reg, cap, b)
  }

  predicate Registered(reg: Registry, cap: Capability) {
    reg.capabilityFor(cap.backend) == Some(cap)
  }

  /** The worst desktop the declarations and the session allow. */
  ghost function Worst(s: Session, reg: Registry): Physics {
    Physics(
      b => reg.capabilityFor(b).Some? && reg.capabilityFor(b).value.StopMayAffectNonTargetOutputs(),
      (b, c) => reg.capabilityFor(b).Some? && !SideBySide(s, reg, reg.capabilityFor(b).value, c))
  }

  lemma WorstIsHonest(s: Session, reg: Registry, cap: Capability)
    requires Registered(reg, cap)
    ensures HonestIn(Worst(s, reg), s, reg, cap)
  {
  }

  /** A session in which every pair holds that the planner lets through. */
  const BEST := Session(true, true, true, true, false)

  /** What holds on every desktop honest to the best session holds wherever the tables alone are kept. */
  lemma TablesAreTheBestSession(p: Physics, reg: Registry, cap: Capability)
    ensures HonestIn(p, BEST, reg, cap) <==> Honest(p, reg, cap)
  {
    forall b | b != cap.backend ensures SideBySide(BEST, reg, cap, b) <==> !reg.PairUnverified(cap.backend, b) {
    }
  }

  // ---------------------------------------------------------------- who loses a renderer

  /** The action takes a renderer of `b` away from an output it does not start on. */
  predicate Removes(p: Physics, a: PlannedAction, b: Backend, o: string) {
    Clears(p, a, b, o) || (a.Apply? && o !in a.outputs && p.disturbs(a.backend, b))
  }

  /** An output nothing is started on keeps its renderer exactly when no action removes it. */
  lemma {:induction false} SurvivesExactly(p: Physics, w: World, actions: seq<PlannedAction>, o: string)
    requires o in w && forall a :: a in actions && a.Apply? ==> o !in a.outputs
    ensures Get(Run(p, w, actions), o) ==
              (if exists a :: a in actions && Removes(p, a, w[o], o) then None else Some(w[o]))
    decreases |actions|
  {
    if actions != [] {
      var first, rest := actions[0], actions[1..];
      var w1 := Step(p, w, first);
      assert first in actions && forall a :: a in actions <==> a == first || a in rest;
      if Removes(p, first, w[o], o) {
        StaysGone(p, w1, rest, o);
      } else {
        assert Get(w1, o) == Some(w[o]);
        SurvivesExactly(p, w1, rest, o);
      }
    }
  }

  lemma {:induction false} StaysGone(p: Physics, w: World, actions: seq<PlannedAction>, o: string)
    requires o !in w && forall a :: a in actions && a.Apply? ==> o !in a.outputs
    ensures o !in Run(p, w, actions)
    decreases |actions|
  {
    if actions != [] {
      assert actions[0] in actions && forall a :: a in actions[1..] ==> a in actions;
      StaysGone(p, Step(p, w, actions[0]), actions[1..], o);
    }
  }

  // ---------------------------------------------------------------- one named output

  /** Freeing the target ends every renderer of `b`. */
  predicate StopsEverywhere(reg: Registry, cap: Capability, running: seq<RunningAssignment>, target: string,
        b: Backend) {
    Lookup(running, target) == Some(b) && MustStop(cap, b) && DeclaredWide(reg, cap, b)
  }

  /** What an accepted named plan takes from a sibling. */
  lemma NamedPlanRemoves(p: Physics, s: Session, reg: Registry, cap: Capability, running: seq<RunningAssignment>,
        target: string, b: Backend, o: string)
    requires NamedPlan(reg, cap, running, target).Some? && HonestIn(p, s, reg, cap) && o != target
    ensures (exists a :: a in NamedPlan(reg, cap, running, target).value && Removes(p, a, b, o))
            <==> p.disturbs(cap.backend, b) || StopsEverywhere(reg, cap, running, target, b)
  {
    var plan, stops := NamedPlan(reg, cap, running, target).value, TargetStops(reg, cap, running, target).value;
    SingleGroup(cap, target);
    var start := Apply(cap.backend, [target]);
    assert plan == stops + [start];
    assert forall a :: a in plan <==> a in stops || a == start;
    assert Removes(p, start, b, o) <==> p.disturbs(cap.backend, b);
    if stops != [] {
      var stop := stops[0];
      assert stops == [stop] && Lookup(running, target) == Some(stop.backend);
      assert Removes(p, stop, b, o) <==> StopsEverywhere(reg, cap, running, target, b);
      assert forall a :: a in plan <==> a == stop || a == start;
    }
  }

  /** A sibling on the list is never stopped along with the target: the plan would have been refused. */
  lemma ListedIsNotStopped(reg: Registry, cap: Capability, running: seq<RunningAssignment>, target: string, o: string,
        b: Backend)
    requires NamedPlan(reg, cap, running, target).Some? && o != target && RunningAssignment(o, b) in running
    ensures !StopsEverywhere(reg, cap, running, target, b)
    ensures b == cap.backend ==> cap.InstancesCoexist()
  {
    var listed := RunningAssignment(o, b);
    assert listed.output != target && listed.backend == b;
    assert !Conflicts(reg, cap, b);
  }

  // ---------------------------------------------------------------- a request for some outputs

  /** The action cannot take the renderer of an output that is listed with `b`, on any honest desktop. */
  ghost predicate Harmless(reg: Registry, cap: Capability, running: seq<RunningAssignment>, a: PlannedAction,
        o: string) {
    match a
    case Apply(b, outputs) => b == cap.backend && o !in outputs
    case Stop(b, outputs) =>
      o !in outputs && !DeclaredWide(reg, cap, b) && (b == cap.backend || reg.capabilityFor(b).Some?)
    case StopBackend(b) => RunningAssignment(o, b) !in running
  }

  lemma TargetedIsHarmless(reg: Registry, cap: Capability, req: Request, o: string)
    requires Plan(reg, cap, req).Some? && !req.target.AllDisplays? && o !in Targets(req)
    ensures forall a :: a in Plan(reg, cap, req).value ==> Harmless(reg, cap, req.running, a, o)
  {
    match req.target {
      case Output(target) =>
        NamedIsHarmless(reg, cap, req.running, target, o);
      case Outputs(selected) =>
        SetPlanShape(reg, cap, req.running, selected);
        MemberStopsHarmless(reg, cap, req.running, selected, selected, o);
        forall a | a in ApplyEach(cap.backend, selected) ensures Harmless(reg, cap, req.running, a, o) {
          var i :| 0 <= i < |selected| && a == Apply(cap.backend, [selected[i]]);
        }
    }
  }

  lemma NamedIsHarmless(reg: Registry, cap: Capability, running: seq<RunningAssignment>, target: string, o: string)
    requires NamedPlan(reg, cap, running, target).Some? && o != target
    ensures forall a :: a in NamedPlan(reg, cap, running, target).value ==> Harmless(reg, cap, running, a, o)
  {
    var stops := TargetStops(reg, cap, running, target).value;
    SingleGroup(cap, target);
    if stops != [] {
      assert stops == [stops[0]];
      var listed := RunningAssignment(o, stops[0].backend);
      assert listed.output != target;
    }
  }

  lemma {:induction false} MemberStopsHarmless(reg: Registry, cap: Capability, running: seq<RunningAssignment>,
        selected: seq<string>, outputs: seq<string>, o: string)
    requires o !in selected
    requires forall x :: x in outputs ==> x in selected && MemberAccepted(reg, cap, running, selected, x)
    ensures forall a :: a in AllMemberStops(reg, cap, running, selected, outputs) ==> Harmless(reg, cap, running, a, o)
  {
    if outputs != [] {
      assert MemberAccepted(reg, cap, running, selected, outputs[0]);
      MemberStopsShape(reg, cap, running, selected, outputs[0]);
      MemberStopsHarmless(reg, cap, running, selected, outputs[1..], o);
    }
  }

  /** The executable steps of a request for some outputs do to any desktop what its plan does. */
  lemma TargetedStepsMeanPlan(p: Physics, reg: Registry, cap: Capability, req: Request, implicated: seq<Backend>,
        path: string, useInstant: bool, perOutput: bool, w: World)
    requires Plan(reg, cap, req).Some? && !req.target.AllDisplays? && forall o :: o in w ==> o in req.known
    ensures Steps(reg, cap, req, implicated, path, useInstant, perOutput).Success?
    ensures var all := Flatten(Steps(reg, cap, req, implicated, path, useInstant, perOutput).value);
            AllNamed(all) && Run(p, w, EraseAll(all)) == Run(p, w, Plan(reg, cap, req).value)
  {
    StepsExist(reg, cap, req, implicated, path, useInstant, perOutput);
    var plan := Plan(reg, cap, req).value;
    var exec := Translate(plan, path, req.known, useInstant).value;
    TranslatedShape(reg, cap, req, implicated, path, useInstant);
    AcceptedPlanExecutable(reg, cap, req);
    TranslationKeepsMeaning(p, w, plan, path, req.known, useInstant);
    if perOutput {
      TargetsNonempty(req);
      EraseStops(exec);
      RetiredShape(reg, cap, req, implicated);
      SplitErases(ExecStops(exec), cap.backend, path, Targets(req), useInstant);
      StopsFirstSplits(EraseAll(exec));
      TargetedStarts(reg, cap, req);
    } else {
      assert [exec][1..] == [] && Flatten([exec]) == exec + [] == exec;
    }
  }

  /**
   * A request for some outputs leaves every other output alone, on every desktop honest to the session,
   * provided the list is right about it and the session permits the pair.
   */
  lemma SiblingsStay(p: Physics, s: Session, reg: Registry, cap: Capability, req: Request, implicated: seq<Backend>,
        path: string, useInstant: bool, perOutput: bool, w: World, o: string)
    requires Plan(reg, cap, req).Some? && !req.target.AllDisplays? && forall x :: x in w ==> x in req.known
    requires HonestIn(p, s, reg, cap) && o !in Targets(req)
    requires o in w ==> RunningAssignment(o, w[o]) in req.running && SideBySide(s, reg, cap, w[o])
    ensures Steps(reg, cap, req, implicated, path, useInstant, perOutput).Success?
    ensures var all := Flatten(Steps(reg, cap, req, implicated, path, useInstant, perOutput).value);
            AllNamed(all) && Get(Run(p, w, EraseAll(all)), o) == Get(w, o)
  {
    TargetedStepsMeanPlan(p, reg, cap, req, implicated, path, useInstant, perOutput, w);
    TargetedIsHarmless(reg, cap, req, o);
    var plan := Plan(reg, cap, req).value;
    assert forall a :: a in plan && a.Apply? ==> Harmless(reg, cap, req.running, a, o);
    if o in w {
      SurvivesExactly(p, w, plan, o);
      forall a | a in plan ensures !Removes(p, a, w[o], o) {
        assert Harmless(reg, cap, req.running, a, o);
      }
    } else {
      StaysGone(p, w, plan, o);
    }
  }

  /** A listed sibling on the requested backend: the plan was accepted because instances coexist. */
  lemma ListedInstancesCoexist(reg: Registry, cap: Capability, req: Request, o: string)
    requires Plan(reg, cap, req).Some? && !req.target.AllDisplays? && o !in Targets(req)
    requires RunningAssignment(o, cap.backend) in req.running
    ensures cap.InstancesCoexist()
  {
    match req.target {
      case Output(target) =>
        ListedIsNotStopped(reg, cap, req.running, target, o, cap.backend);
      case Outputs(selected) =>
        SetPlanShape(reg, cap, req.running, selected);
        assert MemberAccepted(reg, cap, req.running, selected, selected[0]);
        ListedIsNotStopped(reg, cap, Scoped(req.running, selected[0], selected), selected[0], o, cap.backend);
    }
  }

  // ---------------------------------------------------------------- what the executable steps can reach

  /** The action leaves the output out of its scope, or is a stop of a backend that is not listed there. */
  ghost predicate OutOfReach(a: ExecAction, req: Request, o: string) {
    && a.scope.Named?
    && (o in a.scope.outputs ==> a.ExecStop? && o in req.known && RunningAssignment(o, a.backend) !in req.running)
  }

  ghost predicate PlannedAway(a: PlannedAction, req: Request, o: string) {
    if a.StopBackend? then o in req.known ==> RunningAssignment(o, a.backend) !in req.running else o !in a.outputs
  }

  lemma {:induction false} TranslatedOutOfReach(actions: seq<PlannedAction>, path: string, req: Request,
        useInstant: bool, o: string)
    requires Translate(actions, path, req.known, useInstant).Success?
    requires forall a :: a in actions ==> PlannedAway(a, req, o)
    ensures forall a :: a in Translate(actions, path, req.known, useInstant).value ==> OutOfReach(a, req, o)
  {
    if actions != [] {
      assert PlannedAway(actions[0], req, o);
      assert OutOfReach(ToExecAction(actions[0], path, req.known, useInstant).value, req, o);
      TranslatedOutOfReach(actions[1..], path, req, useInstant, o);
    }
  }

  lemma PlanIsAway(reg: Registry, cap: Capability, req: Request, implicated: seq<Backend>, o: string)
    requires Plan(reg, cap, req).Some? && o !in Targets(req)
    ensures forall a :: a in Retired(reg, cap, req, implicated) ==> PlannedAway(a, req, o)
  {
    var plan := Plan(reg, cap, req).value;
    if req.target.AllDisplays? {
      RetiredShape(reg, cap, req, implicated);
      ReplacementGroups(cap, req.running);
      ApplyActionsExecutable(cap, req.known, req.known);
      forall a | a in plan ensures PlannedAway(a, req, o) {
        if a !in ReplacementStops(cap, req.running) {
          assert Executable(a, req.known, req.known);
        }
      }
    } else {
      TargetedIsHarmless(reg, cap, req, o);
      forall a | a in plan ensures PlannedAway(a, req, o) {
        assert Harmless(reg, cap, req.running, a, o);
      }
    }
  }

  /** No executable step of an accepted request reaches what is listed outside its targets. */
  lemma StepsOutOfReach(reg: Registry, cap: Capability, req: Request, implicated: seq<Backend>, path: string,
        useInstant: bool, perOutput: bool, o: string)
    requires Plan(reg, cap, req).Some? && o !in Targets(req)
    ensures Steps(reg, cap, req, implicated, path, useInstant, perOutput).Success?
    ensures forall a :: a in Flatten(Steps(reg, cap, req, implicated, path, useInstant, perOutput).value) ==>
              OutOfReach(a, req, o)
  {
    StepsExist(reg, cap, req, implicated, path, useInstant, perOutput);
    PlanIsAway(reg, cap, req, implicated, o);
    RetiredShape(reg, cap, req, implicated);
    var actions := Retired(reg, cap, req, implicated);
    TranslatedOutOfReach(actions, path, req, useInstant, o);
    var exec := Translate(actions, path, req.known, useInstant).value;
    if perOutput {
      TargetsNonempty(req);
      SplitFlattens(ExecStops(exec), cap.backend, path, Targets(req), useInstant);
      StartEachOutOfReach(cap.backend, path, Targets(req), useInstant, req, o);
    } else {
      assert [exec][1..] == [] && Flatten([exec]) == exec + [] == exec;
    }
  }

  lemma {:induction false} StartEachOutOfReach(b: Backend, path: string, outputs: seq<string>, useInstant: bool,
        req: Request, o: string)
    requires o !in outputs
    ensures forall a :: a in StartEach(b, path, outputs, useInstant) ==> OutOfReach(a, req, o)
  {
    if outputs != [] {
      StartEachOutOfReach(b, path, outputs[1..], useInstant, req, o);
    }
  }

  // ---------------------------------------------------------------- the shipped tables

  function CrossBackendSupport(left: Backend, right: Backend): PairSupport {
    if left == right then Independent
    else match (left, right)
      case (Awww, Mpvpaper) => NiriTransparentAwww
      case (Awww, LinuxWallpaperEngine) => NiriTransparentAwww
      case (Awww, Swaybg) => NiriTransparentAwww
      case (Mpvpaper, Awww) => NiriTransparentAwww
      case (LinuxWallpaperEngine, Awww) => NiriTransparentAwww
      case (Swaybg, Awww) => NiriTransparentAwww
      case (Swaybg, Mpvpaper) => NiriIndependentProcesses
      case (Swaybg, LinuxWallpaperEngine) => NiriIndependentProcesses
      case (Mpvpaper, Swaybg) => NiriIndependentProcesses
      case (LinuxWallpaperEngine, Swaybg) => NiriIndependentProcesses
      case (LinuxWallpaperEngine, Mpvpaper) => Independent
      case (Mpvpaper, LinuxWallpaperEngine) => Independent
      case _ => UnverifiedPair
  }

  function ShippedCapability(b: Backend): (r: Option<Capability>)
    ensures r.Some? <==> Supported(b)
    ensures r.Some? ==>
              r.value.backend == b && r.value.InstancesCoexist() && !r.value.StopMayAffectNonTargetOutputs()
              && r.value.VerifiedNamedOutputTargeting()
              && (r.value.RequiresStopBeforeSameTargetApply() <==> !b.Awww?)
              && (r.value.allDisplays.OneProcessPerOutput? <==> !b.Awww?)
  {
    match b
    case Awww =>
      Some(Capability(Awww, NamedOutputs, CliVerified, OmitMeansAll, SharedDaemonPerOutput, SharedDaemon, InPlace))
    case Mpvpaper =>
      Some(Capability(Mpvpaper, SingleOutputPerProcess, CliVerified, OneProcessPerOutput, TrackedProcessPerOutput,
                      SeparateProcessesVerified, StopThenApply))
    case Swaybg =>
      Some(Capability(Swaybg, NamedOutputs, CliVerified, OneProcessPerOutput, TrackedProcessPerOutput,
                      SeparateProcessesVerified, StopThenApply))
    case LinuxWallpaperEngine =>
      Some(Capability(LinuxWallpaperEngine, RepeatedScreenRootPairs, CliVerified, OneProcessPerOutput,
                      TrackedProcessPerOutput, SeparateProcessesVerified, StopThenApply))
    case _ => None
  }

  predicate Supported(b: Backend) {
    b.Awww? || b.Mpvpaper? || b.Swaybg? || b.LinuxWallpaperEngine?
  }

  const SHIPPED := Registry(ShippedCapability, CrossBackendSupport)

  /** The planner refuses no pair of supported backends, and whether one holds depends on the session. */
  lemma ShippedPairs(s: Session, left: Backend, right: Backend)
    requires Supported(left) && Supported(right)
    ensures !SHIPPED.PairUnverified(left, right)
    ensures SHIPPED.Coexist(s, left, right) == SHIPPED.Coexist(s, right, left)
    ensures SHIPPED.Coexist(s, left, right) <==>
              || left == right || {left, right} == {Mpvpaper, LinuxWallpaperEngine}
              || (if Awww in {left, right} then s.niriSocketSet && s.awww012 && !(s.awwwListens && s.awwwUnfit)
                  else s.niriSession)
  {
  }
}
