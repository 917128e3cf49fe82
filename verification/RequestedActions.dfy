/** What a display request comes down to: which stops and which starts, with which arguments. */
module RequestedActions {
  import opened Prelude
  import opened Capabilities
  import opened Renderers
  import opened Planner
  import opened PlannerTheorems
  import opened ApplyPipeline
  import opened ApplySteps
  import opened CleanStarts

  // ---------------------------------------------------------------- starts

  /** Every start is of the given backend, with the given path and mode. */
  ghost predicate StartsWith(actions: seq<ExecAction>, b: Backend, path: string, useInstant: bool) {
    forall a :: a in actions && a.ExecApply? ==>
      a.backend == b && a.path == path && a.scope.Named? && a.useInstant == useInstant
  }

  /** Whether a request starts its backend once for each output, or once for all of them. */
  predicate StartsEach(cap: Capability, req: Request, perOutput: bool) {
    perOutput || !req.target.AllDisplays? || cap.allDisplays.OneProcessPerOutput?
  }

  /** One output, or all connected ones. */
  predicate OneOrAll(outputs: seq<string>, each: bool, known: seq<string>) {
    if each then |outputs| == 1 else outputs == known
  }

  ghost predicate StartsOnly(actions: seq<PlannedAction>, b: Backend, each: bool, known: seq<string>) {
    forall a :: a in actions && a.Apply? ==> a.backend == b && OneOrAll(a.outputs, each, known)
  }

  lemma GroupsAreOneOrAll(cap: Capability, known: seq<string>)
    ensures StartsOnly(ApplyActions(cap, known), cap.backend, cap.allDisplays.OneProcessPerOutput?, known)
  {
    var groups := ApplyOutputGroups(cap.allDisplays, known);
    if !cap.allDisplays.OneProcessPerOutput? && groups != [] {
      assert groups == [groups[0]] && groups[1..] == [] && groups[0] + [] == groups[0];
    }
    forall a | a in ApplyActions(cap, known)
      ensures a.backend == cap.backend && OneOrAll(a.outputs, cap.allDisplays.OneProcessPerOutput?, known)
    {
      var i :| 0 <= i < |groups| && a == Apply(cap.backend, groups[i]);
      assert groups[i] in groups;
    }
  }

  lemma AllPlanStarts(cap: Capability, running: seq<RunningAssignment>, known: seq<string>)
    requires UniqueOutputs(running) && AllPlan(cap, running, known).Some?
    ensures StartsOnly(AllPlan(cap, running, known).value, cap.backend, cap.allDisplays.OneProcessPerOutput?, known)
  {
    ReplacementGroups(cap, running);
    GroupsAreOneOrAll(cap, known);
  }

  lemma TargetedPlanStarts(reg: Registry, cap: Capability, req: Request)
    requires Plan(reg, cap, req).Some? && !req.target.AllDisplays?
    ensures StartsOnly(Plan(reg, cap, req).value, cap.backend, true, req.known)
  {
    match req.target {
      case Output(o) => SingleGroup(cap, o);
      case Outputs(os) => SetPlanShape(reg, cap, req.running, os);
    }
  }

  /** The starts of an accepted plan are all of the requested backend. */
  lemma PlanStartsBackend(reg: Registry, cap: Capability, req: Request, implicated: seq<Backend>)
    requires Plan(reg, cap, req).Some?
    ensures StartsOnly(Retired(reg, cap, req, implicated), cap.backend, StartsEach(cap, req, false), req.known)
  {
    if req.target.AllDisplays? {
      PlanIsAllPlan(reg, cap, req);
      AllPlanStarts(cap, req.running, req.known);
      SpliceHolds(Plan(reg, cap, req).value, cap, implicated);
    } else {
      TargetedPlanStarts(reg, cap, req);
    }
  }

  lemma PlanIsAllPlan(reg: Registry, cap: Capability, req: Request)
    requires Plan(reg, cap, req).Some? && req.target.AllDisplays?
    ensures UniqueOutputs(req.running) && AllPlan(cap, req.running, req.known) == Plan(reg, cap, req)
    ensures forall a :: a in req.running ==> a.output in req.known
  {
  }

  ghost predicate StartsOneOrAll(actions: seq<ExecAction>, each: bool, known: seq<string>) {
    forall a :: a in actions && a.ExecApply? ==> a.scope.Named? && OneOrAll(a.scope.outputs, each, known)
  }

  lemma {:induction false} TranslatedStartsWith(actions: seq<PlannedAction>, path: string, known: seq<string>,
        useInstant: bool, b: Backend, each: bool)
    requires Translate(actions, path, known, useInstant).Success?
    requires StartsOnly(actions, b, each, known)
    ensures StartsWith(Translate(actions, path, known, useInstant).value, b, path, useInstant)
    ensures StartsOneOrAll(Translate(actions, path, known, useInstant).value, each, known)
  {
    if actions != [] {
      assert actions[0] in actions;
      TranslatedStartsWith(actions[1..], path, known, useInstant, b, each);
    }
  }

  lemma {:induction false} StartEachStartsWith(b: Backend, path: string, outputs: seq<string>, useInstant: bool)
    ensures StartsWith(StartEach(b, path, outputs, useInstant), b, path, useInstant)
    ensures forall a :: a in StartEach(b, path, outputs, useInstant) ==> a.ExecApply? && |a.scope.outputs| == 1
  {
    if outputs != [] {
      StartEachStartsWith(b, path, outputs[1..], useInstant);
    }
  }

  lemma {:induction false} ExecStopsAreAll(actions: seq<ExecAction>, a: ExecAction)
    requires a in actions && a.ExecStop?
    ensures a in ExecStops(actions)
  {
    if actions[0] != a {
      ExecStopsAreAll(actions[1..], a);
    }
  }

  /** The executable list holds the translated stops, and its starts are those asked for. */
  lemma StepsHold(reg: Registry, cap: Capability, req: Request, implicated: seq<Backend>, path: string,
        useInstant: bool, perOutput: bool)
    requires Plan(reg, cap, req).Some?
    ensures Translate(Retired(reg, cap, req, implicated), path, req.known, useInstant).Success?
    ensures Steps(reg, cap, req, implicated, path, useInstant, perOutput).Success?
    ensures var all := Flatten(Steps(reg, cap, req, implicated, path, useInstant, perOutput).value);
            var exec := Translate(Retired(reg, cap, req, implicated), path, req.known, useInstant).value;
            && StartsWith(all, cap.backend, path, useInstant)
            && (forall a: ExecAction :: a.ExecStop? ==> (a in all <==> a in exec))
            && StartsOneOrAll(all, StartsEach(cap, req, perOutput), req.known)
  {
    StepsExist(reg, cap, req, implicated, path, useInstant, perOutput);
    RetiredShape(reg, cap, req, implicated);
    PlanStartsBackend(reg, cap, req, implicated);
    var actions := Retired(reg, cap, req, implicated);
    TranslatedStartsWith(actions, path, req.known, useInstant, cap.backend, StartsEach(cap, req, false));
    var exec := Translate(actions, path, req.known, useInstant).value;
    if perOutput {
      TargetsNonempty(req);
      SplitFlattens(ExecStops(exec), cap.backend, path, Targets(req), useInstant);
      StartEachStartsWith(cap.backend, path, Targets(req), useInstant);
      forall a | a in exec && a.ExecStop? ensures a in ExecStops(exec) {
        ExecStopsAreAll(exec, a);
      }
    } else {
      assert [exec][1..] == [] && Flatten([exec]) == exec + [] == exec;
    }
  }

  // ---------------------------------------------------------------- stops

  /** A planned stop of what shows on a target, no wider than it has to be. */
  ghost predicate PlannedFor(a: PlannedAction, reg: Registry, cap: Capability, req: Request, o: string) {
    && o in Targets(req) && RunningAssignment(o, a.backend) in req.running && MustStop(cap, a.backend)
    && match a
       case Stop(b, outputs) =>
         if req.target.AllDisplays? then
           o in outputs && forall x :: x in outputs ==> RunningAssignment(x, b) in req.running
         else outputs == [o]
       case StopBackend(b) => req.target.Output? && DeclaredWide(reg, cap, b)
       case Apply(_, _) => false
  }

  /** A stop added for a backend with live evidence that no planned stop is of. */
  ghost predicate PlannedExtra(a: PlannedAction, cap: Capability, req: Request, implicated: seq<Backend>) {
    && req.target.AllDisplays? && a.StopBackend? && a.backend in implicated && MustStop(cap, a.backend)
    && forall r :: r in req.running ==> r.backend != a.backend
  }

  ghost predicate PlannedStopsAreThose(actions: seq<PlannedAction>, reg: Registry, cap: Capability, req: Request,
        implicated: seq<Backend>) {
    && (forall a :: a in actions && !a.Apply? ==>
          (exists o :: PlannedFor(a, reg, cap, req, o)) || PlannedExtra(a, cap, req, implicated))
    && (forall r :: r in req.running && r.output in Targets(req) && MustStop(cap, r.backend) ==>
          exists a :: a in actions && a.backend == r.backend && PlannedFor(a, reg, cap, req, r.output))
    && (req.target.AllDisplays? ==> forall b :: b in implicated && MustStop(cap, b) ==> HasStopOf(actions, b))
  }

  lemma NamedStopsAreThose(reg: Registry, cap: Capability, req: Request)
    requires Plan(reg, cap, req).Some? && req.target.Output?
    ensures PlannedStopsAreThose(Plan(reg, cap, req).value, reg, cap, req, [])
  {
    var o, plan := req.target.name, Plan(reg, cap, req).value;
    var stops := TargetStops(reg, cap, req.running, o).value;
    SingleGroup(cap, o);
    assert plan == stops + [Apply(cap.backend, [o])] && Targets(req) == [o];
    if stops != [] {
      assert stops == [stops[0]] && PlannedFor(stops[0], reg, cap, req, o);
    }
    forall r | r in req.running && r.output in Targets(req) && MustStop(cap, r.backend)
      ensures exists a :: a in plan && a.backend == r.backend && PlannedFor(a, reg, cap, req, r.output)
    {
      LookupUnique(req.running, r);
      assert stops[0] in plan;
    }
  }

  lemma MemberIsPlannedFor(reg: Registry, cap: Capability, req: Request, o: string)
    requires Plan(reg, cap, req).Some? && req.target.Outputs? && o in req.target.names
    ensures MemberAccepted(reg, cap, req.running, req.target.names, o)
    ensures forall a :: a in MemberStops(reg, cap, req.running, req.target.names, o) ==>
              PlannedFor(a, reg, cap, req, o)
    ensures forall r :: r in req.running && r.output == o && MustStop(cap, r.backend) ==>
              Stop(r.backend, [o]) in MemberStops(reg, cap, req.running, req.target.names, o)
  {
    var os := req.target.names;
    SetPlanShape(reg, cap, req.running, os);
    MemberStopsShape(reg, cap, req.running, os, o);
    ScopedKeepsTarget(req.running, o, os);
    var stops := MemberStops(reg, cap, req.running, os, o);
    forall a | a in stops ensures PlannedFor(a, reg, cap, req, o) {
      assert a == stops[0];
    }
    forall r | r in req.running && r.output == o && MustStop(cap, r.backend) ensures Stop(r.backend, [o]) in stops {
      LookupUnique(req.running, r);
    }
  }

  lemma {:induction false} AllMemberStopsHave(reg: Registry, cap: Capability, running: seq<RunningAssignment>,
        selected: seq<string>, outputs: seq<string>, a: PlannedAction)
    requires forall o :: o in outputs ==> MemberAccepted(reg, cap, running, selected, o)
    ensures a in AllMemberStops(reg, cap, running, selected, outputs) <==>
              exists o :: o in outputs && a in MemberStops(reg, cap, running, selected, o)
  {
    if outputs != [] {
      assert MemberAccepted(reg, cap, running, selected, outputs[0]);
      AllMemberStopsHave(reg, cap, running, selected, outputs[1..], a);
      assert forall o :: o in outputs <==> o == outputs[0] || o in outputs[1..];
    }
  }

  lemma SetStopsAreThose(reg: Registry, cap: Capability, req: Request)
    requires Plan(reg, cap, req).Some? && req.target.Outputs?
    ensures PlannedStopsAreThose(Plan(reg, cap, req).value, reg, cap, req, [])
  {
    var os, plan := req.target.names, Plan(reg, cap, req).value;
    SetPlanShape(reg, cap, req.running, os);
    var stops := AllMemberStops(reg, cap, req.running, os, os);
    forall a | a in plan && !a.Apply? ensures exists o :: PlannedFor(a, reg, cap, req, o) {
      assert a in stops;
      AllMemberStopsHave(reg, cap, req.running, os, os, a);
      var o :| o in os && a in MemberStops(reg, cap, req.running, os, o);
      MemberIsPlannedFor(reg, cap, req, o);
    }
    forall r | r in req.running && r.output in Targets(req) && MustStop(cap, r.backend)
      ensures exists a :: a in plan && a.backend == r.backend && PlannedFor(a, reg, cap, req, r.output)
    {
      var a := Stop(r.backend, [r.output]);
      MemberIsPlannedFor(reg, cap, req, r.output);
      AllMemberStopsHave(reg, cap, req.running, os, os, a);
      assert a in plan && a.backend == r.backend;
    }
  }

  lemma GroupIsPlannedFor(reg: Registry, cap: Capability, req: Request, a: PlannedAction)
    requires Plan(reg, cap, req).Some? && req.target.AllDisplays? && a in ReplacementStops(cap, req.running)
    ensures a.Stop? && (forall o :: o in a.outputs ==> PlannedFor(a, reg, cap, req, o)) && a.outputs != []
  {
    PlanIsAllPlan(reg, cap, req);
    ReplacementGroups(cap, req.running);
    OtherBackendsAreThose(req.running, cap.backend);
    var stops := ReplacementStops(cap, req.running);
    var i :| 0 <= i < |stops| && stops[i] == a;
    assert a.outputs == OutputsOn(req.running, a.backend);
    assert MustStop(cap, a.backend);
  }

  lemma AllStopsAreThose(reg: Registry, cap: Capability, req: Request, implicated: seq<Backend>)
    requires Plan(reg, cap, req).Some? && req.target.AllDisplays?
    ensures PlannedStopsAreThose(Retired(reg, cap, req, implicated), reg, cap, req, implicated)
  {
    var plan, actions := Plan(reg, cap, req).value, Retired(reg, cap, req, implicated);
    PlanIsAllPlan(reg, cap, req);
    SpliceHolds(plan, cap, implicated);
    forall a | a in actions && !a.Apply?
      ensures (exists o :: PlannedFor(a, reg, cap, req, o)) || PlannedExtra(a, cap, req, implicated)
    {
      if a in plan {
        assert a in ReplacementStops(cap, req.running) || a in ApplyActions(cap, req.known);
        GroupIsPlannedFor(reg, cap, req, a);
        assert PlannedFor(a, reg, cap, req, a.outputs[0]);
      } else {
        PlannedBackends(cap, req.running, req.known, a.backend);
        forall r | r in req.running ensures r.backend != a.backend {
          assert !HasStopOf(plan, a.backend);
        }
      }
    }
    forall r | r in req.running && r.output in Targets(req) && MustStop(cap, r.backend)
      ensures exists a :: a in actions && a.backend == r.backend && PlannedFor(a, reg, cap, req, r.output)
    {
      var stops := ReplacementStops(cap, req.running);
      GroupOf(cap, req.running, r.output, r.backend);
      var i :| 0 <= i < |stops| && stops[i].backend == r.backend && stops[i].Stop? && r.output in stops[i].outputs;
      assert stops[i] in stops && stops[i] in plan && stops[i] in actions;
      GroupIsPlannedFor(reg, cap, req, stops[i]);
    }
    forall b | b in implicated && MustStop(cap, b) ensures HasStopOf(actions, b) {
      SpliceRetires(plan, cap, implicated, b);
    }
  }

  lemma SpliceHolds(plan: seq<PlannedAction>, cap: Capability, implicated: seq<Backend>)
    ensures forall a :: a in Splice(plan, cap, implicated) <==> a in plan || a in ExtraStops(plan, cap, implicated)
  {
    var i := FirstApply(plan);
    assert plan == plan[..i] + plan[i..];
  }

  lemma StopsAreThose(reg: Registry, cap: Capability, req: Request, implicated: seq<Backend>)
    requires Plan(reg, cap, req).Some?
    ensures PlannedStopsAreThose(Retired(reg, cap, req, implicated), reg, cap, req, implicated)
  {
    match req.target {
      case AllDisplays => AllStopsAreThose(reg, cap, req, implicated);
      case Output(_) => NamedStopsAreThose(reg, cap, req);
      case Outputs(_) => SetStopsAreThose(reg, cap, req);
    }
  }

  // ---------------------------------------------------------------- the whole list

  /** An executable stop of what shows on a target, no wider than it has to be. */
  ghost predicate StopsFor(a: ExecAction, reg: Registry, cap: Capability, req: Request, o: string) {
    && a.ExecStop? && a.scope.Named? && o in Targets(req) && RunningAssignment(o, a.backend) in req.running
    && MustStop(cap, a.backend) && o in a.scope.outputs
    && (|| (req.target.AllDisplays? &&
              forall x :: x in a.scope.outputs ==> RunningAssignment(x, a.backend) in req.running)
        || a.scope.outputs == [o]
        || (req.target.Output? && DeclaredWide(reg, cap, a.backend) && a.scope.outputs == req.known))
  }

  /** A stop of a backend with live evidence that is not listed anywhere. */
  ghost predicate StopsExtra(a: ExecAction, cap: Capability, req: Request, implicated: seq<Backend>) {
    && a == ExecStop(a.backend, Named(req.known)) && req.target.AllDisplays?
    && a.backend in implicated && MustStop(cap, a.backend) && forall r :: r in req.running ==> r.backend != a.backend
  }

  /**
   * The actions are the stops a request needs, every one of them and no others, and then the starts of the
   * targets, in order, with the arguments of the request.
   */
  ghost predicate AsRequested(actions: seq<ExecAction>, reg: Registry, cap: Capability, req: Request,
        implicated: seq<Backend>, path: string, perOutput: bool) {
    var useInstant :=
      (exists a :: a in actions && a.ExecStop?) || forall r :: r in req.running ==> r.backend != cap.backend;
    && AllNamed(actions) && StopsFirst(EraseAll(actions)) && Applied(EraseAll(actions)) == Targets(req)
    && StartsWith(actions, cap.backend, path, useInstant)
    && StartsOneOrAll(actions, StartsEach(cap, req, perOutput), req.known)
    && (forall a :: a in actions && a.ExecStop? ==>
          (exists o :: StopsFor(a, reg, cap, req, o)) || StopsExtra(a, cap, req, implicated))
    && (forall r :: r in req.running && r.output in Targets(req) && MustStop(cap, r.backend) ==>
          exists a :: a in actions && a.backend == r.backend && StopsFor(a, reg, cap, req, r.output))
    && (req.target.AllDisplays? ==>
          forall b :: b in implicated && MustStop(cap, b) ==> exists a :: a in actions && a.ExecStop? && a.backend == b)
  }

  lemma StopTranslates(reg: Registry, cap: Capability, req: Request, implicated: seq<Backend>, path: string,
        useInstant: bool, i: nat)
    requires Plan(reg, cap, req).Some? && i < |Retired(reg, cap, req, implicated)|
    requires Translate(Retired(reg, cap, req, implicated), path, req.known, useInstant).Success?
    ensures var actions := Retired(reg, cap, req, implicated);
            var exec := Translate(actions, path, req.known, useInstant).value;
            && |exec| == |actions| && exec[i].backend == actions[i].backend && exec[i].ExecStop? == !actions[i].Apply?
            && (forall o :: PlannedFor(actions[i], reg, cap, req, o) ==> StopsFor(exec[i], reg, cap, req, o))
            && (PlannedExtra(actions[i], cap, req, implicated) ==> StopsExtra(exec[i], cap, req, implicated))
  {
    TranslatedAt(Retired(reg, cap, req, implicated), path, req.known, useInstant, i);
    forall o | o in Targets(req) ensures o in req.known {
      TargetsKnown(reg, cap, req, o);
    }
  }

  lemma TargetsKnown(reg: Registry, cap: Capability, req: Request, o: string)
    requires Plan(reg, cap, req).Some? && o in Targets(req)
    ensures o in req.known
  {
  }

  lemma ActionsAreAsRequested(reg: Registry, cap: Capability, req: Request, implicated: seq<Backend>, path: string,
        useInstant: bool, perOutput: bool)
    requires Plan(reg, cap, req).Some?
    requires useInstant <==> (exists a :: a in Retired(reg, cap, req, implicated) && !a.Apply?)
                             || forall r :: r in req.running ==> r.backend != cap.backend
    ensures Steps(reg, cap, req, implicated, path, useInstant, perOutput).Success?
    ensures AsRequested(Flatten(Steps(reg, cap, req, implicated, path, useInstant, perOutput).value), reg, cap, req,
              implicated, path, perOutput)
  {
    StepsExist(reg, cap, req, implicated, path, useInstant, perOutput);
    StepsHold(reg, cap, req, implicated, path, useInstant, perOutput);
    StopsAreThose(reg, cap, req, implicated);
    var planned := Retired(reg, cap, req, implicated);
    var exec := Translate(planned, path, req.known, useInstant).value;
    var all := Flatten(Steps(reg, cap, req, implicated, path, useInstant, perOutput).value);
    forall i | 0 <= i < |planned| ensures StopIs(planned[i], exec, reg, cap, req, implicated, i) {
      StopTranslates(reg, cap, req, implicated, path, useInstant, i);
    }
    TranslatedLength(planned, path, req.known, useInstant);
    StopsCarryOver(planned, exec, reg, cap, req, implicated);
  }

  ghost predicate StopIs(p: PlannedAction, exec: seq<ExecAction>, reg: Registry, cap: Capability, req: Request,
        implicated: seq<Backend>, i: nat) {
    && i < |exec| && exec[i].backend == p.backend && exec[i].ExecStop? == !p.Apply?
    && (forall o :: PlannedFor(p, reg, cap, req, o) ==> StopsFor(exec[i], reg, cap, req, o))
    && (PlannedExtra(p, cap, req, implicated) ==> StopsExtra(exec[i], cap, req, implicated))
  }

  lemma {:induction false} TranslatedLength(actions: seq<PlannedAction>, path: string, known: seq<string>,
        useInstant: bool)
    requires Translate(actions, path, known, useInstant).Success?
    ensures |Translate(actions, path, known, useInstant).value| == |actions|
  {
    if actions != [] {
      TranslatedLength(actions[1..], path, known, useInstant);
    }
  }

  lemma StopsCarryOver(planned: seq<PlannedAction>, exec: seq<ExecAction>, reg: Registry, cap: Capability, req: Request,
        implicated: seq<Backend>)
    requires |planned| == |exec| && PlannedStopsAreThose(planned, reg, cap, req, implicated)
    requires forall i :: 0 <= i < |planned| ==> StopIs(planned[i], exec, reg, cap, req, implicated, i)
    ensures (exists a :: a in exec && a.ExecStop?) <==> exists a :: a in planned && !a.Apply?
    ensures forall a :: a in exec && a.ExecStop? ==>
              (exists o :: StopsFor(a, reg, cap, req, o)) || StopsExtra(a, cap, req, implicated)
    ensures forall r :: r in req.running && r.output in Targets(req) && MustStop(cap, r.backend) ==>
              exists a :: a in exec && a.backend == r.backend && StopsFor(a, reg, cap, req, r.output)
    ensures req.target.AllDisplays? ==>
              forall b :: b in implicated && MustStop(cap, b) ==> exists a :: a in exec && a.ExecStop? && a.backend == b
  {
    forall a | a in exec && a.ExecStop?
      ensures (exists o :: StopsFor(a, reg, cap, req, o)) || StopsExtra(a, cap, req, implicated)
      ensures exists p :: p in planned && !p.Apply?
    {
      var i :| 0 <= i < |exec| && exec[i] == a;
      assert StopIs(planned[i], exec, reg, cap, req, implicated, i) && planned[i] in planned;
    }
    forall p | p in planned && !p.Apply?
      ensures exists a :: a in exec && a.ExecStop? && a.backend == p.backend
      ensures forall o :: PlannedFor(p, reg, cap, req, o) ==>
                exists a :: a in exec && a.backend == p.backend && StopsFor(a, reg, cap, req, o)
    {
      var i :| 0 <= i < |planned| && planned[i] == p;
      assert StopIs(planned[i], exec, reg, cap, req, implicated, i) && exec[i] in exec;
    }
  }
}
