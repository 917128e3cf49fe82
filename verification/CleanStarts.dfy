/** No renderer is started over another one: what every stop is for. */
module CleanStarts {
  import opened Prelude
  import opened Capabilities
  import opened Renderers
  import opened Planner
  import opened PlannerTheorems
  import opened ApplyPipeline
  import opened ApplySteps
  import opened DisplayState
  import opened Observation

  /** The output is free for `b`, or already shows it and is replaced in place. */
  predicate Startable(w: World, o: string, b: Backend, inPlace: bool) {
    o !in w || (inPlace && w[o] == b)
  }

  /** Every start happens on outputs that are ready for it. */
  ghost predicate StartsClean(p: Physics, w: World, actions: seq<PlannedAction>, inPlace: bool)
    decreases |actions|
  {
    actions == []
    || (&& (actions[0].Apply? ==> forall o :: o in actions[0].outputs ==> Startable(w, o, actions[0].backend, inPlace))
        && StartsClean(p, Step(p, w, actions[0]), actions[1..], inPlace))
  }

  lemma {:induction false} CleanAfterStops(p: Physics, w: World, stops: seq<PlannedAction>, starts: seq<PlannedAction>,
        inPlace: bool)
    requires forall a :: a in stops ==> !a.Apply?
    ensures StartsClean(p, w, stops + starts, inPlace) <==> StartsClean(p, Run(p, w, stops), starts, inPlace)
    decreases |stops|
  {
    if stops == [] {
      assert stops + starts == starts;
    } else {
      assert (stops + starts)[0] == stops[0] && (stops + starts)[1..] == stops[1..] + starts;
      assert stops[0] in stops;
      CleanAfterStops(p, Step(p, w, stops[0]), stops[1..], starts, inPlace);
    }
  }

  /** Starting output by output does not spoil the outputs still to come. */
  lemma {:induction false} EachStartsClean(p: Physics, w: World, b: Backend, outputs: seq<string>, inPlace: bool)
    requires Distinct(outputs) && forall o :: o in outputs ==> Startable(w, o, b, inPlace)
    ensures StartsClean(p, w, ApplyEach(b, outputs), inPlace)
    decreases |outputs|
  {
    if outputs != [] {
      var start, later := Apply(b, [outputs[0]]), outputs[1..];
      var w1 := Step(p, w, start);
      assert ApplyEach(b, outputs)[0] == start && ApplyEach(b, outputs)[1..] == ApplyEach(b, later);
      forall o | o in later ensures Startable(w1, o, b, inPlace) {
        assert o in outputs && o != outputs[0];
      }
      EachStartsClean(p, w1, b, later, inPlace);
    }
  }

  lemma OneStartsClean(p: Physics, w: World, b: Backend, outputs: seq<string>, inPlace: bool)
    requires forall o :: o in outputs ==> Startable(w, o, b, inPlace)
    ensures StartsClean(p, w, [Apply(b, outputs)], inPlace)
  {
    assert [Apply(b, outputs)][1..] == [];
  }

  // ---------------------------------------------------------------- what stops clear

  predicate Clears(p: Physics, a: PlannedAction, b: Backend, o: string) {
    !a.Apply? && a.backend == b && (a.StopBackend? || p.wide(b) || o in a.outputs)
  }

  /** A run of stops frees an output exactly when one of them reaches its renderer there. */
  lemma {:induction false} StopsClearExactly(p: Physics, w: World, stops: seq<PlannedAction>, o: string)
    requires forall a :: a in stops ==> !a.Apply?
    ensures o in Run(p, w, stops) <==> o in w && forall a :: a in stops ==> !Clears(p, a, w[o], o)
    ensures o in Run(p, w, stops) ==> Run(p, w, stops)[o] == w[o]
    decreases |stops|
  {
    if stops != [] {
      var w1 := Step(p, w, stops[0]);
      assert stops[0] in stops;
      assert forall a :: a in stops <==> a == stops[0] || a in stops[1..];
      assert o in w1 <==> o in w && !Clears(p, stops[0], w[o], o);
      StopsClearExactly(p, w1, stops[1..], o);
    }
  }

  /** The renderer must be gone before the requested backend starts. */
  predicate MustStop(cap: Capability, b: Backend) {
    b != cap.backend || cap.RequiresStopBeforeSameTargetApply()
  }

  /** Stops that reach everything that must stop on the targets make them ready. */
  lemma ClearedIsReady(p: Physics, w: World, cap: Capability, stops: seq<PlannedAction>, targets: seq<string>)
    requires forall a :: a in stops ==> !a.Apply?
    requires forall o :: o in targets && o in w && MustStop(cap, w[o]) ==>
               exists a :: a in stops && Clears(p, a, w[o], o)
    ensures forall o :: o in targets ==>
              Startable(Run(p, w, stops), o, cap.backend, !cap.RequiresStopBeforeSameTargetApply())
  {
    forall o | o in targets
      ensures Startable(Run(p, w, stops), o, cap.backend, !cap.RequiresStopBeforeSameTargetApply())
    {
      StopsClearExactly(p, w, stops, o);
    }
  }

  // ---------------------------------------------------------------- accepted plans

  lemma TargetIsStopped(p: Physics, reg: Registry, cap: Capability, running: seq<RunningAssignment>, o: string)
    requires TargetStops(reg, cap, running, o).Some? && o in AsWorld(running) && MustStop(cap, AsWorld(running)[o])
    ensures exists a :: a in TargetStops(reg, cap, running, o).value && Clears(p, a, AsWorld(running)[o], o)
  {
    InWorld(running, o);
    var stops := TargetStops(reg, cap, running, o).value;
    assert stops[0] in stops && Clears(p, stops[0], AsWorld(running)[o], o);
  }

  lemma {:induction false} MemberIsStopped(p: Physics, reg: Registry, cap: Capability, running: seq<RunningAssignment>,
        selected: seq<string>, outputs: seq<string>, o: string)
    requires forall x :: x in outputs ==> MemberAccepted(reg, cap, running, selected, x)
    requires o in outputs && o in AsWorld(running) && MustStop(cap, AsWorld(running)[o])
    ensures exists a ::
              a in AllMemberStops(reg, cap, running, selected, outputs) && Clears(p, a, AsWorld(running)[o], o)
  {
    assert MemberAccepted(reg, cap, running, selected, outputs[0]);
    if o == outputs[0] {
      InWorld(running, o);
      ScopedKeepsTarget(running, o, selected);
      MemberStopsShape(reg, cap, running, selected, o);
      var stops := MemberStops(reg, cap, running, selected, o);
      assert stops != [];
      assert stops[0] in AllMemberStops(reg, cap, running, selected, outputs)
          && Clears(p, stops[0], AsWorld(running)[o], o);
    } else {
      MemberIsStopped(p, reg, cap, running, selected, outputs[1..], o);
    }
  }

  lemma GroupStops(p: Physics, cap: Capability, running: seq<RunningAssignment>, o: string)
    requires UniqueOutputs(running) && o in AsWorld(running) && MustStop(cap, AsWorld(running)[o])
    ensures exists a :: a in ReplacementStops(cap, running) && Clears(p, a, AsWorld(running)[o], o)
  {
    var stops, b := ReplacementStops(cap, running), AsWorld(running)[o];
    InWorld(running, o);
    GroupOf(cap, running, o, b);
    var i :| 0 <= i < |stops| && stops[i].backend == b && stops[i].Stop? && o in stops[i].outputs;
    assert stops[i] in stops && Clears(p, stops[i], b, o);
  }

  /** The stops of an accepted plan. */
  ghost function StopsOf(reg: Registry, cap: Capability, req: Request): seq<PlannedAction>
    requires Plan(reg, cap, req).Some?
  {
    match req.target
    case AllDisplays => ReplacementStops(cap, req.running)
    case Output(o) => TargetStops(reg, cap, req.running, o).value
    case Outputs(os) => SetPlanShape(reg, cap, req.running, os); AllMemberStops(reg, cap, req.running, os, os)
  }

  lemma StopsOfPlan(p: Physics, reg: Registry, cap: Capability, req: Request)
    requires Plan(reg, cap, req).Some?
    ensures forall a :: a in StopsOf(reg, cap, req) ==> !a.Apply?
    ensures Plan(reg, cap, req).value == StopsOf(reg, cap, req) + OnlyApplies(Plan(reg, cap, req).value)
    ensures forall o, b :: o in Targets(req) && RunningAssignment(o, b) in req.running && MustStop(cap, b) ==>
              exists a :: a in StopsOf(reg, cap, req) && Clears(p, a, b, o)
  {
    forall o, b | o in Targets(req) && RunningAssignment(o, b) in req.running && MustStop(cap, b)
      ensures exists a :: a in StopsOf(reg, cap, req) && Clears(p, a, b, o)
    {
      LookupUnique(req.running, RunningAssignment(o, b));
      InWorld(req.running, o);
      match req.target {
        case AllDisplays => GroupStops(p, cap, req.running, o);
        case Output(name) => TargetIsStopped(p, reg, cap, req.running, name);
        case Outputs(os) =>
          SetPlanShape(reg, cap, req.running, os);
          MemberIsStopped(p, reg, cap, req.running, os, os, o);
      }
    }
    PlanInParts(reg, cap, req);
  }

  lemma StartsOfParts(stops: seq<PlannedAction>, starts: seq<PlannedAction>)
    requires (forall a :: a in stops ==> !a.Apply?) && forall a :: a in starts ==> a.Apply?
    ensures OnlyApplies(stops + starts) == starts
  {
    OnlyStopsConcat(stops, starts);
    OnlyStopsOfStops(stops);
    OnlyAppliesOfApplies(starts);
  }

  lemma PlanInParts(reg: Registry, cap: Capability, req: Request)
    requires Plan(reg, cap, req).Some?
    ensures forall a :: a in StopsOf(reg, cap, req) ==> !a.Apply?
    ensures Plan(reg, cap, req).value == StopsOf(reg, cap, req) + OnlyApplies(Plan(reg, cap, req).value)
  {
    match req.target {
      case AllDisplays =>
        StartsOfParts(ReplacementStops(cap, req.running), ApplyActions(cap, req.known));
      case Output(o) =>
        StartsOfParts(TargetStops(reg, cap, req.running, o).value, ApplyActions(cap, [o]));
      case Outputs(os) =>
        SetPlanShape(reg, cap, req.running, os);
        TargetedStarts(reg, cap, req);
    }
  }

  lemma GroupsStartClean(p: Physics, w: World, cap: Capability, known: seq<string>, inPlace: bool)
    requires Distinct(known) && known != [] && forall o :: o in known ==> Startable(w, o, cap.backend, inPlace)
    ensures StartsClean(p, w, ApplyActions(cap, known), inPlace)
  {
    if cap.allDisplays.OneProcessPerOutput? {
      ApplyActionsAreSingles(cap, known);
      EachStartsClean(p, w, cap.backend, known, inPlace);
    } else {
      assert [known][1..] == [];
      assert ApplyActions(cap, known) == [Apply(cap.backend, known)];
      OneStartsClean(p, w, cap.backend, known, inPlace);
    }
  }

  /** Starting the planned groups is clean when every target is ready. */
  lemma PlannedStartsClean(p: Physics, reg: Registry, cap: Capability, req: Request, w: World, inPlace: bool)
    requires Plan(reg, cap, req).Some? && forall o :: o in Targets(req) ==> Startable(w, o, cap.backend, inPlace)
    ensures StartsClean(p, w, OnlyApplies(Plan(reg, cap, req).value), inPlace)
  {
    if req.target.AllDisplays? {
      StartsOfParts(ReplacementStops(cap, req.running), ApplyActions(cap, req.known));
      GroupsStartClean(p, w, cap, req.known, inPlace);
    } else {
      TargetedStarts(reg, cap, req);
      assert req.target.Output? ==> Distinct(Targets(req));
      EachStartsClean(p, w, cap.backend, Targets(req), inPlace);
    }
  }

  /** Whatever really shows on a target is on the running list. */
  ghost predicate Listed(w: World, running: seq<RunningAssignment>, targets: seq<string>) {
    forall o :: o in targets && o in w ==> RunningAssignment(o, w[o]) in running
  }

  /**
   * On any desktop whose targets are listed, an accepted plan never starts the requested backend over another
   * renderer, nor over its own unless that backend replaces in place.
   */
  lemma PlanStartsClean(p: Physics, reg: Registry, cap: Capability, req: Request, w: World)
    requires Plan(reg, cap, req).Some? && Listed(w, req.running, Targets(req))
    ensures StartsClean(p, w, Plan(reg, cap, req).value, !cap.RequiresStopBeforeSameTargetApply())
  {
    var stops := StopsOf(reg, cap, req);
    StopsOfPlan(p, reg, cap, req);
    ClearedIsReady(p, w, cap, stops, Targets(req));
    PlannedStartsClean(p, reg, cap, req, Run(p, w, stops), !cap.RequiresStopBeforeSameTargetApply());
    CleanAfterStops(p, w, stops, OnlyApplies(Plan(reg, cap, req).value), !cap.RequiresStopBeforeSameTargetApply());
  }

  // ---------------------------------------------------------------- executable steps

  lemma {:induction false} TranslatedAt(actions: seq<PlannedAction>, path: string, known: seq<string>,
        useInstant: bool, i: nat)
    requires Translate(actions, path, known, useInstant).Success? && i < |actions|
    ensures var exec := Translate(actions, path, known, useInstant).value;
            |exec| == |actions| && ToExecAction(actions[i], path, known, useInstant) == Success(exec[i])
    decreases |actions|
  {
    if |actions| > 1 {
      TranslatedAt(actions[1..], path, known, useInstant, if i == 0 then 0 else i - 1);
    }
  }

  /** A backend-wide stop names all connected outputs; everything else is translated as it is. */
  lemma ErasedAt(actions: seq<PlannedAction>, path: string, known: seq<string>, useInstant: bool, i: nat)
    requires Translate(actions, path, known, useInstant).Success? && i < |actions|
    requires AllNamed(Translate(actions, path, known, useInstant).value)
    ensures var exec := Translate(actions, path, known, useInstant).value;
            |exec| == |actions| && EraseAll(exec)[i]
                == if actions[i].StopBackend? then Stop(actions[i].backend, known) else actions[i]
  {
    TranslatedAt(actions, path, known, useInstant, i);
  }

  lemma {:induction false} KeepsStops(actions: seq<PlannedAction>, a: PlannedAction)
    requires a in actions && !a.Apply?
    ensures a in OnlyStops(actions)
  {
    if actions[0] != a {
      KeepsStops(actions[1..], a);
    }
  }

  /** What a stop reaches among the connected outputs, its translation reaches too. */
  lemma TranslatedStopClears(p: Physics, actions: seq<PlannedAction>, path: string, known: seq<string>,
        useInstant: bool, b: Backend, o: string)
    requires Translate(actions, path, known, useInstant).Success?
             && AllNamed(Translate(actions, path, known, useInstant).value)
    requires o in known && exists a :: a in actions && Clears(p, a, b, o)
    ensures exists a ::
              a in OnlyStops(EraseAll(Translate(actions, path, known, useInstant).value)) && Clears(p, a, b, o)
  {
    var exec := Translate(actions, path, known, useInstant).value;
    var a :| a in actions && Clears(p, a, b, o);
    var i :| 0 <= i < |actions| && actions[i] == a;
    ErasedAt(actions, path, known, useInstant, i);
    var e := EraseAll(exec)[i];
    assert e in EraseAll(exec) && Clears(p, e, b, o);
    KeepsStops(EraseAll(exec), e);
  }

  /** The stops of the executable list leave every target ready. */
  lemma ExecutableStopsClear(p: Physics, reg: Registry, cap: Capability, req: Request, implicated: seq<Backend>,
        path: string, useInstant: bool, w: World)
    requires Plan(reg, cap, req).Some? && Listed(w, req.running, Targets(req))
    requires Translate(Retired(reg, cap, req, implicated), path, req.known, useInstant).Success?
    requires AllNamed(Translate(Retired(reg, cap, req, implicated), path, req.known, useInstant).value)
    ensures var stops :=
              OnlyStops(EraseAll(Translate(Retired(reg, cap, req, implicated), path, req.known, useInstant).value));
            forall o :: o in Targets(req) ==>
                  Startable(Run(p, w, stops), o, cap.backend, !cap.RequiresStopBeforeSameTargetApply())
  {
    var actions := Retired(reg, cap, req, implicated);
    var stops := OnlyStops(EraseAll(Translate(actions, path, req.known, useInstant).value));
    StopsOfPlan(p, reg, cap, req);
    PlanIsRetired(reg, cap, req, implicated);
    forall o | o in Targets(req) && o in w && MustStop(cap, w[o])
      ensures exists a :: a in stops && Clears(p, a, w[o], o)
    {
      assert RunningAssignment(o, w[o]) in req.running;
      var a :| a in StopsOf(reg, cap, req) && Clears(p, a, w[o], o);
      assert a in actions;
      TranslatedStopClears(p, actions, path, req.known, useInstant, w[o], o);
    }
    OnlyStopsAreStops(EraseAll(Translate(actions, path, req.known, useInstant).value));
    ClearedIsReady(p, w, cap, stops, Targets(req));
  }

  lemma SpliceKeeps(plan: seq<PlannedAction>, cap: Capability, implicated: seq<Backend>)
    ensures forall a :: a in plan ==> a in Splice(plan, cap, implicated)
  {
    var i := FirstApply(plan);
    assert plan == plan[..i] + plan[i..];
  }

  lemma PlanIsRetired(reg: Registry, cap: Capability, req: Request, implicated: seq<Backend>)
    requires Plan(reg, cap, req).Some?
    ensures forall a :: a in StopsOf(reg, cap, req) ==> a in Retired(reg, cap, req, implicated)
  {
    var plan, stops := Plan(reg, cap, req).value, StopsOf(reg, cap, req);
    PlanInParts(reg, cap, req);
    SpliceKeeps(plan, cap, implicated);
    forall a | a in stops ensures a in plan {
      assert plan == stops + OnlyApplies(plan);
    }
  }

  /**
   * The same for the executable steps, spliced, translated and split or not: they never start a
   * renderer over another.
   */
  lemma StepsStartClean(p: Physics, reg: Registry, cap: Capability, req: Request, implicated: seq<Backend>,
        path: string, useInstant: bool, perOutput: bool, w: World)
    requires Plan(reg, cap, req).Some? && Listed(w, req.running, Targets(req))
    ensures Steps(reg, cap, req, implicated, path, useInstant, perOutput).Success?
    ensures var all := Flatten(Steps(reg, cap, req, implicated, path, useInstant, perOutput).value);
            AllNamed(all) && StartsClean(p, w, EraseAll(all), !cap.RequiresStopBeforeSameTargetApply())
  {
    StepsExist(reg, cap, req, implicated, path, useInstant, perOutput);
    TranslatedShape(reg, cap, req, implicated, path, useInstant);
    RetiredShape(reg, cap, req, implicated);
    ExecutableStopsClear(p, reg, cap, req, implicated, path, useInstant, w);
    var exec, inPlace := Translate(Retired(reg, cap, req, implicated), path, req.known, useInstant).value,
          !cap.RequiresStopBeforeSameTargetApply();
    var stops := OnlyStops(EraseAll(exec));
    OnlyStopsAreStops(EraseAll(exec));
    if perOutput {
      TargetsNonempty(req);
      EraseStops(exec);
      SplitErases(ExecStops(exec), cap.backend, path, Targets(req), useInstant);
      assert req.target.Output? ==> Distinct(Targets(req));
      EachStartsClean(p, Run(p, w, stops), cap.backend, Targets(req), inPlace);
      CleanAfterStops(p, w, stops, ApplyEach(cap.backend, Targets(req)), inPlace);
    } else {
      assert [exec][1..] == [] && Flatten([exec]) == exec + [] == exec;
      StopsFirstSplits(EraseAll(exec));
      PlannedStartsClean(p, reg, cap, req, Run(p, w, stops), inPlace);
      CleanAfterStops(p, w, stops, OnlyApplies(Plan(reg, cap, req).value), inPlace);
    }
  }

  // ---------------------------------------------------------------- the retirement splice

  /** A planned stop or a spliced retirement reaches the renderer of the output. */
  ghost predicate Retires(p: Physics, cap: Capability, running: seq<RunningAssignment>, implicated: seq<Backend>,
        b: Backend, o: string) {
    var planned := exists a :: a in running && a.backend == b;
    RunningAssignment(o, b) in running || (if planned then p.wide(b) else b in implicated)
  }

  ghost function SplicedStops(cap: Capability, running: seq<RunningAssignment>, known: seq<string>,
        implicated: seq<Backend>): seq<PlannedAction>
    requires AllPlan(cap, running, known).Some?
  {
    ReplacementStops(cap, running) + ExtraStops(AllPlan(cap, running, known).value, cap, implicated)
  }

  lemma PlannedBackends(cap: Capability, running: seq<RunningAssignment>, known: seq<string>, b: Backend)
    requires UniqueOutputs(running) && AllPlan(cap, running, known).Some? && MustStop(cap, b)
    ensures HasStopOf(AllPlan(cap, running, known).value, b) <==> exists a :: a in running && a.backend == b
    ensures forall s :: s in ReplacementStops(cap, running) ==>
              s.Stop? && forall o :: o in s.outputs ==> RunningAssignment(o, s.backend) in running
  {
    var plan, stops := AllPlan(cap, running, known).value, ReplacementStops(cap, running);
    ReplacementGroups(cap, running);
    if a :| a in running && a.backend == b {
      GroupOf(cap, running, a.output, b);
      var i :| 0 <= i < |stops| && stops[i].backend == b && stops[i].Stop? && a.output in stops[i].outputs;
      assert stops[i] in plan;
    }
    if s :| s in plan && !s.Apply? && s.backend == b {
      assert s in stops || s in ApplyActions(cap, known);
      assert s.outputs[0] in s.outputs;
      assert RunningAssignment(s.outputs[0], b).backend == b;
    }
  }

  /**
   * Which renderers are gone before an All Displays request starts anything, on any desktop: one that
   * must stop is retired exactly when the running list places it on that output, or its stop is
   * process-wide and planned, or it has live evidence and no planned stop at all.
   */
  lemma SpliceRetiresExactly(p: Physics, cap: Capability, running: seq<RunningAssignment>, known: seq<string>,
        implicated: seq<Backend>, w: World, o: string)
    requires UniqueOutputs(running) && AllPlan(cap, running, known).Some?
    requires o in w && MustStop(cap, w[o])
    ensures o !in Run(p, w, SplicedStops(cap, running, known, implicated)) <==>
              Retires(p, cap, running, implicated, w[o], o)
  {
    var b, planned := w[o], ReplacementStops(cap, running);
    var extra := ExtraStops(AllPlan(cap, running, known).value, cap, implicated);
    PlannedBackends(cap, running, known, b);
    StopsClearExactly(p, w, planned + extra, o);
    assert forall a :: a in planned + extra <==> a in planned || a in extra;
    if a :| a in running && a.backend == b && (a.output == o || p.wide(b)) {
      GroupOf(cap, running, a.output, b);
      var i :| 0 <= i < |planned| && planned[i].backend == b && planned[i].Stop? && a.output in planned[i].outputs;
      assert planned[i] in planned + extra && Clears(p, planned[i], b, o);
    } else if b in implicated && !exists a :: a in running && a.backend == b {
      assert StopBackend(b).backend == b;
      assert StopBackend(b) in planned + extra && Clears(p, StopBackend(b), b, o);
    }
    if exists s :: s in planned && Clears(p, s, b, o) {
      PlannedClear(p, cap, running, b, o);
    }
  }

  lemma PlannedClear(p: Physics, cap: Capability, running: seq<RunningAssignment>, b: Backend, o: string)
    requires UniqueOutputs(running) && exists s :: s in ReplacementStops(cap, running) && Clears(p, s, b, o)
    ensures RunningAssignment(o, b) in running || (p.wide(b) && exists a :: a in running && a.backend == b)
  {
    ReplacementGroups(cap, running);
    var s :| s in ReplacementStops(cap, running) && Clears(p, s, b, o);
    assert s.outputs[0] in OutputsOn(running, b);
    assert RunningAssignment(s.outputs[0], b).backend == b;
  }

  // ---------------------------------------------------------------- from observation to clean starts

  /** The running list comes from a truthful observation, overlaid on saved backends for All Displays. */
  ghost predicate ObservedList(w: World, req: Request, rows: seq<Row>, seen: seq<(string, Ownership)>) {
    Truthful(seen, w) && OverlaidList(req, rows, seen)
  }

  /** The list is what was seen, overlaid on saved backends for All Displays. */
  ghost predicate OverlaidList(req: Request, rows: seq<Row>, seen: seq<(string, Ownership)>) {
    forall o :: Lookup(req.running, o)
         == Overlaid(if req.target.AllDisplays? then SavedBackend(rows, req.known, o) else None, Owner(seen, o))
  }

  /** Every target that shows something shows its saved backend: what the transaction insists on. */
  ghost predicate ShowsSaved(w: World, req: Request, rows: seq<Row>) {
    forall o :: o in Targets(req) && o in w ==> SavedBackend(rows, req.known, o) == Some(w[o])
  }

  /**
   * An observation may leave targets of All Displays uncertain. Once the transaction has accepted the
   * targets as recoverable, nothing that really runs on them is missing from the running list.
   */
  lemma ShownAsSavedIsListed(w: World, req: Request, rows: seq<Row>, seen: seq<(string, Ownership)>)
    requires ObservedList(w, req, rows, seen) && ShowsSaved(w, req, rows)
    requires req.target.AllDisplays? || forall i :: 0 <= i < |seen| ==> !seen[i].1.Uncertain?
    requires forall o :: o in Targets(req) ==> exists i :: 0 <= i < |seen| && seen[i].0 == o
    ensures Listed(w, req.running, Targets(req))
  {
    forall o | o in Targets(req) && o in w ensures RunningAssignment(o, w[o]) in req.running {
      OwnerFound(seen, o);
      var owner := Owner(seen, o).value;
      var i :| 0 <= i < |seen| && seen[i] == (o, owner);
      assert Lookup(req.running, o) == Some(w[o]);
    }
  }

  /**
   * A renderer that the stops before an All Displays start would miss is always one that the
   * transaction refuses to replace: its output is not recoverable.
   */
  lemma MissedRendererIsRefused(p: Physics, reg: Registry, cap: Capability, req: Request, implicated: seq<Backend>,
        rows: seq<Row>, seen: seq<(string, Ownership)>, w: World, o: string)
    requires Plan(reg, cap, req).Some? && req.target.AllDisplays? && ObservedList(w, req, rows, seen)
    requires forall x :: x in req.known ==> exists i :: 0 <= i < |seen| && seen[i].0 == x
    requires o in req.known && o in w && MustStop(cap, w[o])
    requires o in Run(p, w, SplicedStops(cap, req.running, req.known, implicated))
    ensures SavedBackend(rows, req.known, o) != Some(w[o]) && Owner(seen, o) == Some(Uncertain)
  {
    PlanIsAccepted(reg, cap, req);
    MissedIsUnlisted(p, cap, req.running, req.known, implicated, w, o);
    UnlistedIsUncertain(w, req, rows, seen, o);
  }

  lemma PlanIsAccepted(reg: Registry, cap: Capability, req: Request)
    requires Plan(reg, cap, req).Some? && req.target.AllDisplays?
    ensures UniqueOutputs(req.running) && AllPlan(cap, req.running, req.known).Some?
  {
  }

  lemma MissedIsUnlisted(p: Physics, cap: Capability, running: seq<RunningAssignment>, known: seq<string>,
        implicated: seq<Backend>, w: World, o: string)
    requires UniqueOutputs(running) && AllPlan(cap, running, known).Some?
    requires o in w && MustStop(cap, w[o]) && o in Run(p, w, SplicedStops(cap, running, known, implicated))
    ensures RunningAssignment(o, w[o]) !in running
  {
    SpliceRetiresExactly(p, cap, running, known, implicated, w, o);
    assert RunningAssignment(o, w[o]).backend == w[o];
  }

  lemma UnlistedIsUncertain(w: World, req: Request, rows: seq<Row>, seen: seq<(string, Ownership)>, o: string)
    requires req.target.AllDisplays? && ObservedList(w, req, rows, seen)
    requires o in w && RunningAssignment(o, w[o]) !in req.running && exists i :: 0 <= i < |seen| && seen[i].0 == o
    ensures SavedBackend(rows, req.known, o) != Some(w[o]) && Owner(seen, o) == Some(Uncertain)
  {
    OwnerFound(seen, o);
    var owner := Owner(seen, o).value;
    var i :| 0 <= i < |seen| && seen[i] == (o, owner);
    assert Lookup(req.running, o) != Some(w[o]);
  }
}
