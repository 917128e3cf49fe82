/** The steps one display request is executed as, and where they leave the desktop. */
module ApplySteps {
  import opened Prelude
  import opened Capabilities
  import opened Renderers
  import opened Planner
  import opened PlannerTheorems
  import opened ApplyPipeline

  function ExecStops(actions: seq<ExecAction>): (r: seq<ExecAction>)
    ensures forall a :: a in r ==> a in actions && a.ExecStop?
  {
    if actions == [] then []
    else if actions[0].ExecStop? then [actions[0]] + ExecStops(actions[1..])
    else ExecStops(actions[1..])
  }

  /** One step per output; the stops all run before the first start. */
  function SplitSteps(stops: seq<ExecAction>, b: Backend, path: string, outputs: seq<string>,
        useInstant: bool): seq<seq<ExecAction>>
    decreases |outputs|
  {
    if outputs == [] then []
    else
      [stops + [ExecApply(b, path, Named([outputs[0]]), useInstant)]]
      + SplitSteps([], b, path, outputs[1..], useInstant)
  }

  method SplitIntoSteps(actions: seq<ExecAction>, b: Backend, path: string, outputs: seq<string>, useInstant: bool)
      returns (steps: seq<seq<ExecAction>>)
    ensures steps == SplitSteps(ExecStops(actions), b, path, outputs, useInstant)
  {
    var stops := ExecStops(actions);
    steps := [];
    for index := 0 to |outputs|
      invariant steps + SplitSteps(if index == 0 then stops else [], b, path, outputs[index..], useInstant)
             == SplitSteps(stops, b, path, outputs, useInstant)
    {
      var core := (if index == 0 then stops else []) + [ExecApply(b, path, Named([outputs[index]]), useInstant)];
      assert outputs[index..][1..] == outputs[index + 1..];
      steps := steps + [core];
    }
  }

  lemma {:induction false} EraseConcat(a: seq<ExecAction>, b: seq<ExecAction>)
    requires AllNamed(a) && AllNamed(b)
    ensures AllNamed(a + b) && EraseAll(a + b) == EraseAll(a) + EraseAll(b)
  {
    if a == [] {
      assert a + b == b;
    } else {
      var rest := a[1..];
      assert (a + b)[0] == a[0] && (a + b)[1..] == rest + b;
      EraseConcat(rest, b);
      assert [Erase(a[0])] + (EraseAll(rest) + EraseAll(b)) == ([Erase(a[0])] + EraseAll(rest)) + EraseAll(b);
    }
  }

  lemma {:induction false} EraseStops(actions: seq<ExecAction>)
    requires AllNamed(actions)
    ensures AllNamed(ExecStops(actions)) && EraseAll(ExecStops(actions)) == OnlyStops(EraseAll(actions))
  {
    if actions != [] {
      assert actions[0] in actions;
      EraseStops(actions[1..]);
      assert EraseAll(actions)[1..] == EraseAll(actions[1..]);
      if actions[0].ExecStop? {
        assert ExecStops(actions)[1..] == ExecStops(actions[1..]);
      }
    }
  }

  function StartEach(b: Backend, path: string, outputs: seq<string>, useInstant: bool): (r: seq<ExecAction>)
    ensures AllNamed(r)
  {
    if outputs == [] then []
    else [ExecApply(b, path, Named([outputs[0]]), useInstant)] + StartEach(b, path, outputs[1..], useInstant)
  }

  /** Read as one list, the per-output steps are the stops followed by one start per output. */
  lemma {:induction false} SplitFlattens(stops: seq<ExecAction>, b: Backend, path: string, outputs: seq<string>,
        useInstant: bool)
    requires outputs != []
    ensures Flatten(SplitSteps(stops, b, path, outputs, useInstant)) == stops + StartEach(b, path, outputs, useInstant)
    decreases |outputs|
  {
    var later := outputs[1..];
    var first := stops + [ExecApply(b, path, Named([outputs[0]]), useInstant)];
    var rest := SplitSteps([], b, path, later, useInstant);
    var starts := StartEach(b, path, later, useInstant);
    assert ([first] + rest)[1..] == rest;
    if later != [] {
      SplitFlattens([], b, path, later, useInstant);
      assert [] + starts == starts;
    }
    assert first + starts == stops + ([ExecApply(b, path, Named([outputs[0]]), useInstant)] + starts);
  }

  lemma {:induction false} StartEachErases(b: Backend, path: string, outputs: seq<string>, useInstant: bool)
    ensures EraseAll(StartEach(b, path, outputs, useInstant)) == ApplyEach(b, outputs)
  {
    if outputs != [] {
      var starts := StartEach(b, path, outputs, useInstant);
      assert starts[1..] == StartEach(b, path, outputs[1..], useInstant);
      StartEachErases(b, path, outputs[1..], useInstant);
    }
  }

  lemma SplitErases(stops: seq<ExecAction>, b: Backend, path: string, outputs: seq<string>, useInstant: bool)
    requires AllNamed(stops) && outputs != []
    ensures var all := Flatten(SplitSteps(stops, b, path, outputs, useInstant));
            AllNamed(all) && EraseAll(all) == EraseAll(stops) + ApplyEach(b, outputs)
  {
    SplitFlattens(stops, b, path, outputs, useInstant);
    StartEachErases(b, path, outputs, useInstant);
    EraseConcat(stops, StartEach(b, path, outputs, useInstant));
  }

  lemma {:induction false} StopsFirstSplits(actions: seq<PlannedAction>)
    requires StopsFirst(actions)
    ensures actions == OnlyStops(actions) + OnlyApplies(actions)
  {
    if actions != [] {
      assert StopsFirst(actions[1..]);
      StopsFirstSplits(actions[1..]);
      if actions[0].Apply? {
        assert forall a :: a in actions ==> a.Apply?;
        OnlyAppliesOfApplies(actions);
      }
    }
  }

  // ---------------------------------------------------------------- accepted plans are executable

  /** Every action of an accepted plan names a valid, connected scope that meets the outputs it starts. */
  ghost predicate Executable(a: PlannedAction, known: seq<string>, targets: seq<string>) {
    && Translatable(a)
    && (a.Apply? ==> forall o :: o in a.outputs ==> o in known)
    && (!a.StopBackend? ==> exists o :: o in a.outputs && o in targets)
  }

  lemma GroupIsExecutable(a: PlannedAction, known: seq<string>, targets: seq<string>)
    requires !a.StopBackend? && a.outputs != [] && Distinct(a.outputs)
    requires forall o :: o in a.outputs ==> !IsBlank(o) && o in known && o in targets
    ensures Executable(a, known, targets)
  {
    assert a.outputs[0] in a.outputs;
  }

  lemma ApplyActionsExecutable(cap: Capability, outputs: seq<string>, known: seq<string>)
    requires Distinct(outputs) && forall o :: o in outputs ==> !IsBlank(o) && o in known
    ensures forall a :: a in ApplyActions(cap, outputs) ==> Executable(a, known, outputs)
  {
    var groups := ApplyOutputGroups(cap.allDisplays, outputs);
    forall a | a in ApplyActions(cap, outputs) ensures Executable(a, known, outputs) {
      var i :| 0 <= i < |groups| && a == Apply(cap.backend, groups[i]);
      assert groups[i] in groups;
      GroupInside(groups, i);
      if !cap.allDisplays.OneProcessPerOutput? {
        assert groups[1..] == [] && groups[0] + [] == groups[0];
        assert groups[i] == outputs;
      }
      GroupIsExecutable(a, known, outputs);
    }
  }

  lemma {:induction false} GroupInside(groups: seq<seq<string>>, i: nat)
    requires i < |groups|
    ensures forall o :: o in groups[i] ==> o in Flatten(groups)
  {
    if i > 0 {
      GroupInside(groups[1..], i - 1);
    }
  }

  lemma NamedPlanExecutable(reg: Registry, cap: Capability, running: seq<RunningAssignment>, o: string,
        known: seq<string>)
    requires NamedPlan(reg, cap, running, o).Some? && o in known && !IsBlank(o)
    ensures forall a :: a in NamedPlan(reg, cap, running, o).value ==> Executable(a, known, [o])
  {
    SingleGroup(cap, o);
    assert o in [o];
  }

  lemma {:induction false} MemberStopsExecutable(reg: Registry, cap: Capability, running: seq<RunningAssignment>,
        selected: seq<string>, outputs: seq<string>, known: seq<string>)
    requires forall o :: o in outputs ==>
               MemberAccepted(reg, cap, running, selected, o) && o in selected && o in known && !IsBlank(o)
    ensures forall a :: a in AllMemberStops(reg, cap, running, selected, outputs) ==> Executable(a, known, selected)
  {
    if outputs != [] {
      assert MemberAccepted(reg, cap, running, selected, outputs[0]);
      MemberStopsShape(reg, cap, running, selected, outputs[0]);
      forall a | a in MemberStops(reg, cap, running, selected, outputs[0]) ensures Executable(a, known, selected) {
        GroupIsExecutable(a, known, selected);
      }
      MemberStopsExecutable(reg, cap, running, selected, outputs[1..], known);
    }
  }

  lemma ApplyEachExecutable(b: Backend, selected: seq<string>, known: seq<string>)
    requires forall o :: o in selected ==> o in known && !IsBlank(o)
    ensures forall a :: a in ApplyEach(b, selected) ==> Executable(a, known, selected)
  {
    forall a | a in ApplyEach(b, selected) ensures Executable(a, known, selected) {
      var i :| 0 <= i < |selected| && a == Apply(b, [selected[i]]);
      GroupIsExecutable(a, known, selected);
    }
  }

  lemma AllPlanExecutable(cap: Capability, running: seq<RunningAssignment>, known: seq<string>)
    requires ValidKnown(known) && ValidRunning(running, known) && AllPlan(cap, running, known).Some?
    ensures forall a :: a in AllPlan(cap, running, known).value ==> Executable(a, known, known)
  {
    ReplacementStopsPartition(cap, running);
    ApplyActionsExecutable(cap, known, known);
    forall a | a in ReplacementStops(cap, running) ensures Executable(a, known, known) {
      forall o | o in a.outputs ensures !IsBlank(o) && o in known {
        var i :| 0 <= i < |ReplacementStops(cap, running)| && ReplacementStops(cap, running)[i] == a;
        assert RunningAssignment(o, a.backend) in running;
      }
      GroupIsExecutable(a, known, known);
    }
  }

  /** Nothing in an accepted plan can fail to translate, and no scope misses the outputs being switched. */
  lemma AcceptedPlanExecutable(reg: Registry, cap: Capability, req: Request)
    requires Plan(reg, cap, req).Some?
    ensures ValidScope(req.known)
    ensures forall a :: a in Plan(reg, cap, req).value ==> Executable(a, req.known, Targets(req))
  {
    match req.target {
      case AllDisplays =>
        AllPlanExecutable(cap, req.running, req.known);
      case Output(o) =>
        NamedPlanExecutable(reg, cap, req.running, o, req.known);
      case Outputs(os) =>
        assert os[0] in os;
        SetPlanShape(reg, cap, req.running, os);
        MemberStopsExecutable(reg, cap, req.running, os, os, req.known);
        ApplyEachExecutable(cap.backend, os, req.known);
    }
  }

  // ---------------------------------------------------------------- the whole pipeline

  /** The planned actions after the All Displays splice. */
  ghost function Retired(reg: Registry, cap: Capability, req: Request, implicated: seq<Backend>): seq<PlannedAction>
    requires Plan(reg, cap, req).Some?
  {
    var plan := Plan(reg, cap, req).value;
    if req.target.AllDisplays? then Splice(plan, cap, implicated) else plan
  }

  /** The executable steps; `perOutput` says that the outputs' saved options differ. */
  ghost function Steps(reg: Registry, cap: Capability, req: Request, implicated: seq<Backend>, path: string,
        useInstant: bool, perOutput: bool): Result<seq<seq<ExecAction>>, ScopeError>
    requires Plan(reg, cap, req).Some?
  {
    match Translate(Retired(reg, cap, req, implicated), path, req.known, useInstant)
    case Failure(e) => Failure(e)
    case Success(exec) =>
      Success(
        if perOutput then
          SplitSteps(ExecStops(exec), cap.backend, path, Applied(Plan(reg, cap, req).value), useInstant)
        else
          [exec])
  }

  lemma SpliceMembers(plan: seq<PlannedAction>, cap: Capability, implicated: seq<Backend>)
    ensures forall a :: a in Splice(plan, cap, implicated) ==> a in plan || a.StopBackend?
  {
    var i := FirstApply(plan);
    assert plan == plan[..i] + plan[i..];
  }

  lemma RetiredShape(reg: Registry, cap: Capability, req: Request, implicated: seq<Backend>)
    requires Plan(reg, cap, req).Some?
    ensures var plan, actions := Plan(reg, cap, req).value, Retired(reg, cap, req, implicated);
            && StopsFirst(actions) && OnlyApplies(actions) == OnlyApplies(plan) && Applied(plan) == Targets(req)
            && forall a :: a in actions ==> a in plan || a.StopBackend?
  {
    var plan := Plan(reg, cap, req).value;
    var quiet := Physics(b => false, (b, c) => false);
    match req.target {
      case AllDisplays =>
        AllPlanCoversEverything(quiet, reg, cap, req.running, req.known, map[]);
        SpliceShape(plan, cap, implicated);
        SpliceMembers(plan, cap, implicated);
      case Output(o) =>
        NamedPlanMovesOnlyItsTarget(quiet, reg, cap, req.running, o);
      case Outputs(os) =>
        SetPlanMovesOnlyItsTargets(quiet, reg, cap, req.running, os);
    }
  }

  /** What the translated list looks like. */
  lemma TranslatedShape(reg: Registry, cap: Capability, req: Request, implicated: seq<Backend>, path: string,
        useInstant: bool)
    requires Plan(reg, cap, req).Some?
    ensures Translate(Retired(reg, cap, req, implicated), path, req.known, useInstant).Success?
    ensures var exec := Translate(Retired(reg, cap, req, implicated), path, req.known, useInstant).value;
            && AllNamed(exec) && StopsFirst(EraseAll(exec))
            && OnlyApplies(EraseAll(exec)) == OnlyApplies(Plan(reg, cap, req).value)
  {
    var actions := Retired(reg, cap, req, implicated);
    AcceptedPlanExecutable(reg, cap, req);
    RetiredShape(reg, cap, req, implicated);
    TranslateSucceeds(actions, path, req.known, useInstant);
    TranslationKeepsMeaning(Physics(b => false, (b, c) => false), map[], actions, path, req.known, useInstant);
  }

  /** The steps exist, and read as one list they start exactly the targets after all the stops. */
  lemma StepsExist(reg: Registry, cap: Capability, req: Request, implicated: seq<Backend>, path: string,
        useInstant: bool, perOutput: bool)
    requires Plan(reg, cap, req).Some?
    ensures Steps(reg, cap, req, implicated, path, useInstant, perOutput).Success?
    ensures var all := Flatten(Steps(reg, cap, req, implicated, path, useInstant, perOutput).value);
            && AllNamed(all) && StopsFirst(EraseAll(all)) && Applied(EraseAll(all)) == Targets(req)
  {
    TranslatedShape(reg, cap, req, implicated, path, useInstant);
    RetiredShape(reg, cap, req, implicated);
    var exec := Translate(Retired(reg, cap, req, implicated), path, req.known, useInstant).value;
    if perOutput {
      TargetsNonempty(req);
      EraseStops(exec);
      SplitErases(ExecStops(exec), cap.backend, path, Targets(req), useInstant);
      OnlyStopsAreStops(EraseAll(exec));
      StopsThenEach(OnlyStops(EraseAll(exec)), cap.backend, Targets(req));
    } else {
      assert [exec][1..] == [] && Flatten([exec]) == exec + [] == exec;
      PlanStopsFirst(reg, cap, req);
      AppliedOfParts(EraseAll(exec));
      AppliedOfParts(Plan(reg, cap, req).value);
    }
  }

  lemma StopsThenEach(stops: seq<PlannedAction>, b: Backend, outputs: seq<string>)
    requires forall a :: a in stops ==> !a.Apply?
    ensures StopsFirst(stops + ApplyEach(b, outputs)) && Applied(stops + ApplyEach(b, outputs)) == outputs
  {
    AppliedConcat(stops, ApplyEach(b, outputs));
    AppliedEach(b, outputs);
    NothingApplied(stops);
    StopsThenStarts(stops, ApplyEach(b, outputs));
  }

  lemma TargetsNonempty(req: Request)
    requires WellFormed(req)
    ensures Targets(req) != []
  {
  }

  lemma PlanStopsFirst(reg: Registry, cap: Capability, req: Request)
    requires Plan(reg, cap, req).Some?
    ensures StopsFirst(Plan(reg, cap, req).value)
  {
    var quiet := Physics(b => false, (b, c) => false);
    match req.target {
      case AllDisplays => AllPlanCoversEverything(quiet, reg, cap, req.running, req.known, map[]);
      case Output(o) => NamedPlanMovesOnlyItsTarget(quiet, reg, cap, req.running, o);
      case Outputs(os) => SetPlanMovesOnlyItsTargets(quiet, reg, cap, req.running, os);
    }
  }

  lemma AppliedOfParts(actions: seq<PlannedAction>)
    requires StopsFirst(actions)
    ensures Applied(actions) == Applied(OnlyApplies(actions))
  {
    StopsFirstSplits(actions);
    AppliedConcat(OnlyStops(actions), OnlyApplies(actions));
    OnlyStopsAreStops(actions);
    NothingApplied(OnlyStops(actions));
  }

  /** The starts of a named or set plan are already one per output. */
  lemma TargetedStarts(reg: Registry, cap: Capability, req: Request)
    requires Plan(reg, cap, req).Some? && !req.target.AllDisplays?
    ensures OnlyApplies(Plan(reg, cap, req).value) == ApplyEach(cap.backend, Targets(req))
  {
    match req.target {
      case Output(o) =>
        SingleGroup(cap, o);
        var stops, start := TargetStops(reg, cap, req.running, o).value, [Apply(cap.backend, [o])];
        OnlyStopsConcat(stops, start);
        OnlyStopsOfStops(stops);
        assert start[1..] == [] && ApplyEach(cap.backend, [o]) == start by { assert [o][1..] == []; }
      case Outputs(os) =>
        SetPlanShape(reg, cap, req.running, os);
        var stops := AllMemberStops(reg, cap, req.running, os, os);
        OnlyStopsConcat(stops, ApplyEach(cap.backend, os));
        OnlyStopsOfStops(stops);
        OnlyAppliesOfApplies(ApplyEach(cap.backend, os));
    }
  }

  lemma RunningWithinKnown(req: Request)
    requires WellFormed(req)
    ensures forall o :: o in AsWorld(req.running) ==> o in req.known
  {
  }

  /** The unsplit list, whatever was spliced into it. */
  lemma UnsplitReaches(p: Physics, reg: Registry, cap: Capability, req: Request, implicated: seq<Backend>,
        path: string, useInstant: bool, w: World)
    requires Honest(p, reg, cap) && Plan(reg, cap, req).Some?
    requires forall o :: o in w ==> o in req.known
    requires !req.target.AllDisplays? ==> w == AsWorld(req.running)
    ensures Translate(Retired(reg, cap, req, implicated), path, req.known, useInstant).Success?
    ensures var exec := Translate(Retired(reg, cap, req, implicated), path, req.known, useInstant).value;
            && AllNamed(exec)
            && Run(p, w, EraseAll(exec)) == Run(p, w, Plan(reg, cap, req).value)
  {
    var actions := Retired(reg, cap, req, implicated);
    TranslatedShape(reg, cap, req, implicated, path, useInstant);
    AcceptedPlanExecutable(reg, cap, req);
    RetiredShape(reg, cap, req, implicated);
    TranslationKeepsMeaning(p, w, actions, path, req.known, useInstant);
    if req.target.AllDisplays? {
      SpliceKeepsMeaning(p, reg, cap, req.running, req.known, implicated, w);
    }
  }

  lemma PlanReaches(p: Physics, reg: Registry, cap: Capability, req: Request, w: World)
    requires Honest(p, reg, cap) && Plan(reg, cap, req).Some?
    requires forall o :: o in w ==> o in req.known
    requires !req.target.AllDisplays? ==> w == AsWorld(req.running)
    ensures Run(p, w, Plan(reg, cap, req).value) == Covered(w, Targets(req), cap.backend)
         <==> |Targets(req)| == 1 || !p.disturbs(cap.backend, cap.backend) || req.target.AllDisplays?
    ensures forall o :: o !in Targets(req) ==> Get(Run(p, w, Plan(reg, cap, req).value), o) == Get(w, o)
  {
    var b := cap.backend;
    match req.target {
      case AllDisplays =>
        AllPlanCoversEverything(p, reg, cap, req.running, req.known, w);
        CoveredAll(w, req.known, b);
      case Output(o) =>
        NamedPlanMovesOnlyItsTarget(p, reg, cap, req.running, o);
        CoveredOne(w, o, b);
      case Outputs(os) =>
        SetPlanMovesOnlyItsTargets(p, reg, cap, req.running, os);
    }
  }

  lemma CoveredAll(w: World, known: seq<string>, b: Backend)
    requires forall o :: o in w ==> o in known
    ensures Covered(w, known, b) == map o | o in known :: b
  {
  }

  lemma CoveredOne(w: World, o: string, b: Backend)
    ensures Covered(w, [o], b) == w[o := b]
    ensures forall x :: x !in [o] ==> Get(w[o := b], x) == Get(w, x)
  {
  }

  /** Splitting an All Displays start into one start per output. */
  lemma SplitAllReaches(p: Physics, w: World, stops: seq<PlannedAction>, b: Backend, known: seq<string>)
    requires Distinct(known) && known != [] && forall o :: o in w ==> o in known
    requires forall a :: a in stops ==> !a.Apply?
    ensures Run(p, w, stops + ApplyEach(b, known)) == Covered(w, known, b) <==> |known| == 1 || !p.disturbs(b, b)
  {
    RunConcat(p, w, stops, ApplyEach(b, known));
    StopsOnlyShrink(p, w, stops);
    var w1 := Run(p, w, stops);
    CoveredAll(w, known, b);
    if |known| == 1 || !p.disturbs(b, b) {
      ApplyEachCoversAll(p, w1, b, known);
    } else {
      ApplyEachLosesFirst(p, w1, b, known);
      assert known[0] in Covered(w, known, b);
    }
  }

  /**
   * Planning, retiring, translating and splitting together: no output outside the targets changes,
   * and the targets all end on the requested backend exactly when its instances do not disturb each
   * other, or there is one target, or one All Displays invocation starts them together.
   */
  lemma StepsReachTheTargets(p: Physics, reg: Registry, cap: Capability, req: Request, implicated: seq<Backend>,
        path: string, useInstant: bool, perOutput: bool, w: World)
    requires Honest(p, reg, cap) && Plan(reg, cap, req).Some?
    requires forall o :: o in w ==> o in req.known
    requires !req.target.AllDisplays? ==> w == AsWorld(req.running)
    ensures Steps(reg, cap, req, implicated, path, useInstant, perOutput).Success?
    ensures var all := Flatten(Steps(reg, cap, req, implicated, path, useInstant, perOutput).value);
            && AllNamed(all)
            && (forall o :: o !in Targets(req) ==> Get(Run(p, w, EraseAll(all)), o) == Get(w, o))
            && (Run(p, w, EraseAll(all)) == Covered(w, Targets(req), cap.backend)
                <==> |Targets(req)| == 1 || !p.disturbs(cap.backend, cap.backend)
                     || (req.target.AllDisplays? && !perOutput))
  {
    StepsExist(reg, cap, req, implicated, path, useInstant, perOutput);
    UnsplitReaches(p, reg, cap, req, implicated, path, useInstant, w);
    PlanReaches(p, reg, cap, req, w);
    RetiredShape(reg, cap, req, implicated);
    var exec := Translate(Retired(reg, cap, req, implicated), path, req.known, useInstant).value;
    if perOutput {
      SplitReaches(p, reg, cap, req, implicated, path, useInstant, w, exec);
    } else {
      assert [exec][1..] == [] && Flatten([exec]) == exec + [] == exec;
    }
  }

  /** The per-output form, for either kind of target. */
  lemma SplitReaches(p: Physics, reg: Registry, cap: Capability, req: Request, implicated: seq<Backend>, path: string,
        useInstant: bool, w: World, exec: seq<ExecAction>)
    requires Honest(p, reg, cap) && Plan(reg, cap, req).Some?
    requires forall o :: o in w ==> o in req.known
    requires !req.target.AllDisplays? ==> w == AsWorld(req.running)
    requires Translate(Retired(reg, cap, req, implicated), path, req.known, useInstant) == Success(exec)
             && AllNamed(exec)
    ensures var all := Flatten(SplitSteps(ExecStops(exec), cap.backend, path, Targets(req), useInstant));
            && AllNamed(all)
            && (forall o :: o !in Targets(req) ==> Get(Run(p, w, EraseAll(all)), o) == Get(w, o))
            && (Run(p, w, EraseAll(all)) == Covered(w, Targets(req), cap.backend)
                <==> |Targets(req)| == 1 || !p.disturbs(cap.backend, cap.backend))
  {
    TargetsNonempty(req);
    EraseStops(exec);
    SplitErases(ExecStops(exec), cap.backend, path, Targets(req), useInstant);
    if req.target.AllDisplays? {
      OnlyStopsAreStops(EraseAll(exec));
      SplitAllReaches(p, w, OnlyStops(EraseAll(exec)), cap.backend, req.known);
      SplitAllStaysKnown(p, w, OnlyStops(EraseAll(exec)), cap.backend, req.known);
    } else {
      UnsplitReaches(p, reg, cap, req, implicated, path, useInstant, w);
      PlanReaches(p, reg, cap, req, w);
      TranslatedShape(reg, cap, req, implicated, path, useInstant);
      StopsFirstSplits(EraseAll(exec));
      TargetedStarts(reg, cap, req);
    }
  }

  lemma SplitAllStaysKnown(p: Physics, w: World, stops: seq<PlannedAction>, b: Backend, known: seq<string>)
    requires forall o :: o in w ==> o in known
    requires forall a :: a in stops ==> !a.Apply?
    ensures forall o :: o in Run(p, w, stops + ApplyEach(b, known)) ==> o in known
  {
    RunConcat(p, w, stops, ApplyEach(b, known));
    StopsOnlyShrink(p, w, stops);
    ApplyEachFrame(p, Run(p, w, stops), b, known, known);
    var after := Run(p, w, stops + ApplyEach(b, known));
    forall o | o !in known ensures o !in after {
      assert Get(after, o) == Get(Run(p, w, stops), o);
    }
  }

  // ---------------------------------------------------------------- scopes meet the batch

  ghost predicate MeetsTargets(a: ExecAction, targets: seq<string>) {
    a.scope.Named? && exists o :: o in a.scope.outputs && o in targets
  }

  lemma {:induction false} TranslatedScopes(actions: seq<PlannedAction>, path: string, known: seq<string>,
        useInstant: bool, targets: seq<string>)
    requires Translate(actions, path, known, useInstant).Success?
    requires forall a :: a in actions ==> a.StopBackend? || Executable(a, known, targets)
    requires exists o :: o in targets && o in known
    ensures forall a :: a in Translate(actions, path, known, useInstant).value ==> MeetsTargets(a, targets)
  {
    if actions != [] {
      var first := ToExecAction(actions[0], path, known, useInstant).value;
      assert actions[0] in actions;
      assert MeetsTargets(first, targets);
      TranslatedScopes(actions[1..], path, known, useInstant, targets);
    }
  }

  lemma {:induction false} StartEachScopes(b: Backend, path: string, outputs: seq<string>, useInstant: bool,
        targets: seq<string>)
    requires forall o :: o in outputs ==> o in targets
    ensures forall a :: a in StartEach(b, path, outputs, useInstant) ==> MeetsTargets(a, targets)
  {
    if outputs != [] {
      assert outputs[0] in outputs;
      var start := ExecApply(b, path, Named([outputs[0]]), useInstant);
      assert outputs[0] in start.scope.outputs;
      StartEachScopes(b, path, outputs[1..], useInstant, targets);
    }
  }

  /** Every executable action of an accepted request names at least one output that is being switched. */
  lemma StepScopesMeetTargets(reg: Registry, cap: Capability, req: Request, implicated: seq<Backend>, path: string,
        useInstant: bool, perOutput: bool)
    requires Plan(reg, cap, req).Some?
    ensures Steps(reg, cap, req, implicated, path, useInstant, perOutput).Success?
    ensures forall a :: a in Flatten(Steps(reg, cap, req, implicated, path, useInstant, perOutput).value) ==>
              MeetsTargets(a, Targets(req))
  {
    StepsExist(reg, cap, req, implicated, path, useInstant, perOutput);
    AcceptedPlanExecutable(reg, cap, req);
    RetiredShape(reg, cap, req, implicated);
    TargetsNonempty(req);
    assert Targets(req)[0] in Targets(req) && Targets(req)[0] in req.known;
    var actions := Retired(reg, cap, req, implicated);
    TranslatedScopes(actions, path, req.known, useInstant, Targets(req));
    var exec := Translate(actions, path, req.known, useInstant).value;
    if perOutput {
      SplitFlattens(ExecStops(exec), cap.backend, path, Targets(req), useInstant);
      StartEachScopes(cap.backend, path, Targets(req), useInstant, Targets(req));
    } else {
      assert [exec][1..] == [] && Flatten([exec]) == exec + [] == exec;
    }
  }
}
