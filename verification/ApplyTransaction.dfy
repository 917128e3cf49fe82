/** From a request or a saved sequence to the transaction that carries it out. */
module ApplyTransaction {
  import opened Prelude
  import opened Capabilities
  import opened Renderers
  import opened Planner
  import PlannerTheorems
  import opened DisplayPlan
  import opened ApplyPipeline
  import opened ApplySteps
  import opened DisplayState
  import opened Observation
  import CleanStarts
  import RequestedActions
  import Restore
  import opened Sessions
  import SessionIntents
  import T = SwitchTransaction

  // ---------------------------------------------------------------- the steps of a request

  /** How a request is executed: in one step, or in one step per output with the recipe saved for it. */
  datatype Options = Together(recipe: T.Recipe) | PerOutput(recipes: map<string, T.Recipe>)

  /** Each step names nothing but targets and starts the requested backend. */
  ghost predicate Within(steps: seq<T.TransitionStep>, targets: seq<string>, b: Backend) {
    forall s :: s in steps ==> s.backend == b && s.scope.Named? && forall o :: o in s.scope.outputs ==> o in targets
  }

  /** The scope of each step: one target, or all of them. */
  ghost predicate Spans(steps: seq<T.TransitionStep>, targets: seq<string>, perOutput: bool) {
    forall s :: s in steps ==>
      if perOutput then exists o :: o in targets && s.scope == Named([o]) else s.scope == Named(targets)
  }

  /** The steps carry exactly the given actions, in order. */
  ghost predicate Carries(steps: seq<T.TransitionStep>, actions: seq<seq<ExecAction>>) {
    |steps| == |actions| && forall i :: 0 <= i < |steps| ==> steps[i].actions == actions[i]
  }

  lemma {:induction false} CarriedActions(steps: seq<T.TransitionStep>, actions: seq<seq<ExecAction>>)
    requires Carries(steps, actions)
    ensures T.AllActions(steps) == Flatten(actions)
  {
    if steps != [] {
      CarriedActions(steps[1..], actions[1..]);
    }
  }

  /** What the request asks to show on an output. */
  function Wanted(options: Options, o: string): Option<T.Recipe> {
    match options
    case Together(recipe) => Some(recipe)
    case PerOutput(recipes) => Get(recipes, o)
  }

  /** Every target is in the scope of a step with the recipe wanted there. */
  ghost predicate Serves(steps: seq<T.TransitionStep>, options: Options, targets: seq<string>) {
    forall o :: o in targets && Wanted(options, o).Some? ==>
      exists s :: s in steps && s.recipe == Wanted(options, o) && s.scope.Named? && o in s.scope.outputs
  }

  /** One step per output, each with the recipe of its output. */
  method PerOutputSteps(groups: seq<seq<ExecAction>>, b: Backend, outputs: seq<string>, recipes: map<string, T.Recipe>)
      returns (steps: seq<T.TransitionStep>)
    requires |groups| == |outputs|
    ensures Carries(steps, groups) && Within(steps, outputs, b)
    ensures Serves(steps, PerOutput(recipes), outputs) && Spans(steps, outputs, true)
  {
    steps := [];
    for i := 0 to |outputs|
      invariant Carries(steps, groups[..i]) && Within(steps, outputs, b) && Spans(steps, outputs, true)
      invariant forall j :: 0 <= j < i ==>
                  steps[j].scope == Named([outputs[j]]) && steps[j].recipe == Get(recipes, outputs[j])
    {
      steps := steps + [T.TransitionStep(Named([outputs[i]]), b, Get(recipes, outputs[i]), groups[i])];
    }
    assert groups[..|outputs|] == groups;
    forall o | o in outputs
      ensures exists s :: s in steps && s.recipe == Get(recipes, o) && s.scope.Named? && o in s.scope.outputs
    {
      var i :| 0 <= i < |outputs| && outputs[i] == o;
      assert steps[i] in steps && o in steps[i].scope.outputs;
    }
  }

  lemma {:induction false} SplitCount(stops: seq<ExecAction>, b: Backend, path: string, outputs: seq<string>,
        useInstant: bool)
    ensures |SplitSteps(stops, b, path, outputs, useInstant)| == |outputs|
    decreases |outputs|
  {
    if outputs != [] {
      SplitCount([], b, path, outputs[1..], useInstant);
    }
  }

  /** One step for the whole request. */
  method TogetherStep(exec: seq<ExecAction>, b: Backend, outputs: seq<string>, recipe: T.Recipe)
      returns (steps: seq<T.TransitionStep>)
    ensures Carries(steps, [exec]) && Within(steps, outputs, b)
    ensures Serves(steps, Together(recipe), outputs) && Spans(steps, outputs, false)
  {
    steps := [T.TransitionStep(Named(outputs), b, Some(recipe), exec)];
    assert steps[0] in steps;
  }

  /** Resolves an accepted plan into the steps to execute. */
  method ResolveSteps(reg: Registry, cap: Capability, req: Request, plan: seq<PlannedAction>, implicated: seq<Backend>,
        path: string, useInstant: bool, options: Options)
    returns (outputs: seq<string>, steps: seq<T.TransitionStep>)
    requires Plan(reg, cap, req) == Some(plan)
    ensures outputs == Targets(req)
    ensures Steps(reg, cap, req, implicated, path, useInstant, options.PerOutput?).Success?
    ensures T.AllActions(steps) == Flatten(Steps(reg, cap, req, implicated, path, useInstant, options.PerOutput?).value)
    ensures Serves(steps, options, Targets(req))
    ensures steps != [] && Within(steps, Targets(req), cap.backend)
    ensures Spans(steps, Targets(req), options.PerOutput?)
  {
    outputs := StartedOutputs(reg, cap, req, plan, implicated);
    TargetsNonempty(req);
    var actions := if req.target.AllDisplays? then Splice(plan, cap, implicated) else plan;
    StepsExist(reg, cap, req, implicated, path, useInstant, options.PerOutput?);
    var exec := Translate(actions, path, req.known, useInstant).value;
    match options {
      case Together(recipe) =>
        steps := TogetherStep(exec, cap.backend, outputs, recipe);
        CarriedActions(steps, [exec]);
      case PerOutput(recipes) =>
        var split := SplitIntoSteps(exec, cap.backend, path, outputs, useInstant);
        SplitCount(ExecStops(exec), cap.backend, path, outputs, useInstant);
        steps := PerOutputSteps(split, cap.backend, outputs, recipes);
        CarriedActions(steps, split);
    }
  }

  method StartedOutputs(reg: Registry, cap: Capability, req: Request, plan: seq<PlannedAction>,
        ghost implicated: seq<Backend>)
      returns (outputs: seq<string>)
    requires Plan(reg, cap, req) == Some(plan)
    ensures outputs == Targets(req) == PlannerTheorems.Applied(plan)
  {
    RetiredShape(reg, cap, req, implicated);
    TargetsDistinct(req);
    outputs := PlannedApplyOutputs(plan);
    DistinctIsFirstSeen(Targets(req));
  }

  lemma TargetsDistinct(req: Request)
    requires WellFormed(req)
    ensures Distinct(Targets(req))
  {
  }

  /** Every action of an accepted request meets the targets, which are the outputs of its batch. */
  lemma RequestActionsMeet(reg: Registry, cap: Capability, req: Request, implicated: seq<Backend>, path: string,
        useInstant: bool, perOutput: bool)
    requires Plan(reg, cap, req).Some?
    ensures Steps(reg, cap, req, implicated, path, useInstant, perOutput).Success?
    ensures T.ActionsMeet(Flatten(Steps(reg, cap, req, implicated, path, useInstant, perOutput).value), Targets(req))
  {
    StepScopesMeetTargets(reg, cap, req, implicated, path, useInstant, perOutput);
    var actions := Flatten(Steps(reg, cap, req, implicated, path, useInstant, perOutput).value);
    forall a | a in actions ensures exists o :: o in T.ScopeOutputs(a.scope, Targets(req)) && o in Targets(req) {
      assert MeetsTargets(a, Targets(req));
    }
  }

  // ---------------------------------------------------------------- one display request

  datatype ApplyError = Unobserved(seen: ObservationError) | Rejected(why: Rejection)

  /** Saved recipes and saved rows name the same backends. */
  ghost predicate RecipesMatchRows(rows: seq<Row>, known: seq<string>, saved: map<string, T.Recipe>) {
    forall o :: o in saved && o in known ==> SavedBackend(rows, known, o) == Some(saved[o].backend)
  }

  /**
   * On every desktop the actions can meet, none of them starts the requested backend over a renderer
   * that must go first.
   */
  ghost predicate NeverStartsOver(desktop: T.Desktop, cap: Capability, actions: seq<ExecAction>) {
    var inPlace := !cap.RequiresStopBeforeSameTargetApply();
    AllNamed(actions) && forall p :: CleanStarts.StartsClean(p, T.Backends(desktop), EraseAll(actions), inPlace)
  }

  /**
   * Outside the targets the actions leave alone what was vacant or seen with its owner, on every desktop
   * honest to the session.
   */
  ghost predicate SiblingsUndisturbed(s: Session, reg: Registry, cap: Capability, req: Request, desktop: T.Desktop,
        seen: seq<(string, Ownership)>, actions: seq<ExecAction>) {
    && AllNamed(actions)
    && forall p, o :: HonestIn(p, s, reg, cap) && o !in Targets(req) && (o in desktop ==> T.Definite(seen, o)) ==>
         Get(Run(p, T.Backends(desktop), EraseAll(actions)), o) == Get(T.Backends(desktop), o)
  }

  /** A request switches instantly when something stops first or its backend does not run yet. */
  predicate SwitchesInstantly(planned: seq<PlannedAction>, running: seq<RunningAssignment>, b: Backend) {
    (exists a :: a in planned && !a.Apply?) || !(exists a :: a in running && a.backend == b)
  }

  /** Everything that is to be executed for an accepted request, in order. */
  ghost function RequestActions(reg: Registry, cap: Capability, req: Request, implicated: seq<Backend>, path: string,
        perOutput: bool): seq<ExecAction>
    requires Plan(reg, cap, req).Some?
  {
    var useInstant := SwitchesInstantly(Retired(reg, cap, req, implicated), req.running, cap.backend);
    StepsExist(reg, cap, req, implicated, path, useInstant, perOutput);
    Flatten(Steps(reg, cap, req, implicated, path, useInstant, perOutput).value)
  }

  /**
   * What a finished request has done to the desktop, the log and the preferences; `failed` says whether
   * anything failed beyond the first failure.
   */
  ghost predicate CarriedOut(report: T.Report, req: Request, options: Options, actions: seq<ExecAction>,
        progress: T.Progress, before: T.Desktop, now: T.Desktop, started: seq<ExecAction>, commits: nat, failed: bool)
    requires T.Attempts(progress, actions)
  {
    if report.outcome.Applied? then
      && commits == 1 && started == actions
      && report.outputs == T.AppliedTo(Targets(req))
      && forall o :: o in Targets(req) && Wanted(options, o).Some? ==> Get(now, o) == Wanted(options, o)
    else
      && commits == 0 && T.Summarises(report)
      && T.Reported(report.outputs, Targets(req), progress, Targets(req), before, now)
      && T.TakenBack(report.outputs, Targets(req), req.known, actions, progress, before, now, started, failed)
  }

  /** A start of the request runs while something may show on the connected output. */
  predicate Beside(req: Request, perOutput: bool, o: string) {
    o in req.known && (o !in Targets(req) || (perOutput && exists t :: t in Targets(req) && t != o))
  }

  /** Reasons not to carry a request out that lie in the request, what is saved and the desktop. */
  ghost predicate Unready(reg: Registry, cap: Capability, s: Session, req: Request, rows: seq<Row>,
        saved: map<string, T.Recipe>, inspectionFailed: bool, perOutput: bool, desktop: T.Desktop) {
    || inspectionFailed || (req.target.AllDisplays? && !Expandable(rows, req.known))
    || Plan(reg, cap, req).None? || cap.backend.Feh? || |Targets(req)| > 32
    || (exists o :: o in Targets(req) && T.Unmatched(desktop, saved, o))
    || !reg.Coexist(s, cap.backend, cap.backend)
    || exists o :: o in desktop && Beside(req, perOutput, o) && !reg.Coexist(s, cap.backend, desktop[o].backend)
  }

  lemma UnfitIsUnready(reg: Registry, cap: Capability, s: Session, req: Request, rows: seq<Row>,
        saved: map<string, T.Recipe>, inspectionFailed: bool, perOutput: bool, desktop: T.Desktop,
        steps: seq<T.TransitionStep>)
    requires Plan(reg, cap, req).Some? && Within(steps, Targets(req), cap.backend)
    requires Spans(steps, Targets(req), perOutput)
    requires var batch := T.Batch(Targets(req), req.known, steps);
             T.Unfit(desktop, batch, saved) || !T.PairsFit(reg, s, batch, desktop)
    ensures Unready(reg, cap, s, req, rows, saved, inspectionFailed, perOutput, desktop)
  {
    TargetsDistinct(req);
    TargetsNonempty(req);
    var batch := T.Batch(Targets(req), req.known, steps);
    if !T.PairsFit(reg, s, batch, desktop) && reg.Coexist(s, cap.backend, cap.backend) {
      var t, o :| t in steps && o in req.known && o in desktop && !T.InNamed(t.scope, o)
          && !reg.Coexist(s, t.backend, desktop[o].backend);
      assert Beside(req, perOutput, o);
    }
  }

  /** The running list is right about each connected output, save where its claim stood in for a failed look. */
  ghost predicate ListsWhatRuns(req: Request, rows: seq<Row>, desktop: T.Desktop, failed: bool) {
    forall o :: o in req.known ==>
      || Lookup(req.running, o) == Get(T.Backends(desktop), o)
      || (failed && req.target.AllDisplays? && Lookup(req.running, o) == SavedBackend(rows, req.known, o))
  }

  /**
   * One display request from observation to report. Refused at any stage it changes nothing, and
   * whatever happens no output outside the targets changes. The actions are the stops the request needs
   * and the starts of its targets; carried out they never start over another renderer, even where the
   * observation it was planned on was uncertain, and disturb no sibling that was seen. Applied, every
   * target shows what was wanted there. Otherwise what was attempted is taken back as far as possible, and
   * the report is the summary of its outputs. Nothing but the request itself or a failure keeps it from
   * being applied.
   */
  method ApplyToDisplays(runtime: T.Runtime, preferences: T.Preferences, store: SessionIntents.SessionStore,
        reg: Registry, cap: Capability, target: DisplayTarget, known: seq<string>, rows: seq<Row>,
        saved: map<string, T.Recipe>, implicated: seq<Backend>, inspectionFailed: bool, path: string, options: Options)
    returns (r: Result<T.SwitchResult, ApplyError>, ghost req: Request, ghost actions: seq<ExecAction>,
          ghost progress: T.Progress, ghost seen: seq<(string, Ownership)>)
    requires ValidKnown(known) && UniqueTargets(rows) && RecipesMatchRows(rows, known, saved)
    modifies runtime, preferences, store
    ensures r.Failure? || r.value.Refused? ==>
              && runtime.desktop == old(runtime.desktop) && runtime.log == old(runtime.log)
              && preferences.commits == old(preferences.commits) && store.intents == old(store.intents)
    ensures req.target == target && req.known == known && req.backend == cap.backend
    ensures r.Failure? && r.error.Rejected? ==> Plan(reg, cap, req).None? && Blames(reg, cap, req, r.error.why)
    ensures r.Success? || r.error.Rejected? ==>
              ListsWhatRuns(req, rows, old(runtime.desktop), runtime.faults > old(runtime.faults))
    ensures !(r.Success? && r.value.Finished? && r.value.report.outcome.Applied?) ==>
              || runtime.faults > old(runtime.faults) || preferences.refusals > old(preferences.refusals)
              || Unready(reg, cap, runtime.session, req, rows, saved, inspectionFailed, options.PerOutput?,
                         old(runtime.desktop))
    ensures forall o :: o !in Targets(req) ==> Get(runtime.desktop, o) == Get(old(runtime.desktop), o)
    ensures r.Success? ==>
              && Plan(reg, cap, req).Some?
              && RequestedActions.AsRequested(actions, reg, cap, req, implicated, path, options.PerOutput?)
    ensures r.Success? && r.value.Finished? ==>
              && T.Attempts(progress, actions) && NeverStartsOver(old(runtime.desktop), cap, actions)
              && T.Observed(seen, known, old(runtime.desktop))
              && ((forall o :: o in old(runtime.desktop) ==> o in known) ==>
                    SiblingsUndisturbed(runtime.session, reg, cap, req, old(runtime.desktop), seen, actions))
              && (forall o :: !T.Touched(progress.attempted, o) ==>
                    Get(runtime.desktop, o) == Get(old(runtime.desktop), o))
              && old(runtime.log) <= runtime.log && preferences.commits >= old(preferences.commits)
              && CarriedOut(r.value.report, req, options, actions, progress, old(runtime.desktop), runtime.desktop,
                            runtime.log[|old(runtime.log)|..], preferences.commits - old(preferences.commits),
                            runtime.faults + preferences.refusals > old(runtime.faults + preferences.refusals) + 1)
              && (if r.value.report.outcome.Applied? then SessionIntents.Recorded(store, Targets(req), false)
                  else store.intents == old(store.intents))
              && old(runtime.confirmed) <= runtime.confirmed
              && T.Cleared(runtime.confirmed[|old(runtime.confirmed)|..], Targets(req), old(runtime.desktop),
                           |old(runtime.log)|)
  {
    actions, progress := [], T.Progress([], false, false);
    var planned;
    planned, req, seen := PlanObserved(runtime, reg, cap, target, known, rows, implicated, inspectionFailed);
    if planned.Failure? {
      return Failure(planned.error), req, actions, progress, seen;
    }
    var result;
    result, actions, progress, seen := ExecutePlanned(runtime, preferences, store, reg, cap, planned.value.0,
          planned.value.1, rows, saved, implicated, path, options, seen);
    ActionsFollowRequest(reg, cap, req, implicated, path, options.PerOutput?);
    return Success(result), req, actions, progress, seen;
  }

  lemma ActionsFollowRequest(reg: Registry, cap: Capability, req: Request, implicated: seq<Backend>, path: string,
        perOutput: bool)
    requires Plan(reg, cap, req).Some?
    ensures RequestedActions.AsRequested(RequestActions(reg, cap, req, implicated, path, perOutput), reg, cap, req,
              implicated, path, perOutput)
  {
    var useInstant := SwitchesInstantly(Retired(reg, cap, req, implicated), req.running, cap.backend);
    RequestedActions.ActionsAreAsRequested(reg, cap, req, implicated, path, useInstant, perOutput);
  }

  /** The second half: resolves the plan into steps and executes them. */
  method ExecutePlanned(runtime: T.Runtime, preferences: T.Preferences, store: SessionIntents.SessionStore,
        reg: Registry, cap: Capability, req: Request, plan: seq<PlannedAction>, ghost rows: seq<Row>,
        saved: map<string, T.Recipe>, implicated: seq<Backend>, path: string, options: Options,
        ghost first: seq<(string, Ownership)>)
    returns (result: T.SwitchResult, ghost actions: seq<ExecAction>, ghost progress: T.Progress,
          ghost seen: seq<(string, Ownership)>)
    requires Plan(reg, cap, req) == Some(plan) && RecipesMatchRows(rows, req.known, saved)
    requires T.Observed(first, req.known, runtime.desktop) && ReadOff(req, rows, first)
    modifies runtime, preferences, store
    ensures actions == RequestActions(reg, cap, req, implicated, path, options.PerOutput?)
    ensures runtime.faults >= old(runtime.faults) && preferences.refusals >= old(preferences.refusals)
    ensures forall o :: o !in Targets(req) ==> Get(runtime.desktop, o) == Get(old(runtime.desktop), o)
    ensures result.Refused? ==>
              && runtime.desktop == old(runtime.desktop) && runtime.log == old(runtime.log)
              && preferences.commits == old(preferences.commits) && store.intents == old(store.intents)
    ensures T.Attempts(progress, actions) && old(runtime.log) <= runtime.log
            && preferences.commits >= old(preferences.commits)
    ensures forall o :: !T.Touched(progress.attempted, o) ==> Get(runtime.desktop, o) == Get(old(runtime.desktop), o)
    ensures result.Finished? ==>
              && NeverStartsOver(old(runtime.desktop), cap, actions)
              && T.Observed(seen, req.known, old(runtime.desktop))
              && ((forall o :: o in old(runtime.desktop) ==> o in req.known) ==>
                    SiblingsUndisturbed(runtime.session, reg, cap, req, old(runtime.desktop), seen, actions))
              && CarriedOut(result.report, req, options, actions, progress, old(runtime.desktop), runtime.desktop,
                            runtime.log[|old(runtime.log)|..], preferences.commits - old(preferences.commits),
                            runtime.faults + preferences.refusals > old(runtime.faults + preferences.refusals) + 1)
              && (if result.report.outcome.Applied? then SessionIntents.Recorded(store, Targets(req), false)
                  else store.intents == old(store.intents))
              && old(runtime.confirmed) <= runtime.confirmed
              && T.Cleared(runtime.confirmed[|old(runtime.confirmed)|..], Targets(req), old(runtime.desktop),
                           |old(runtime.log)|)
    ensures !(result.Finished? && result.report.outcome.Applied?) ==>
              || runtime.faults > old(runtime.faults) || preferences.refusals > old(preferences.refusals)
              || Unready(reg, cap, runtime.session, req, rows, saved, false, options.PerOutput?, old(runtime.desktop))
  {
    var spliced := if req.target.AllDisplays? then Splice(plan, cap, implicated) else plan;
    var useInstant := SwitchesInstantly(spliced, req.running, cap.backend);
    var outputs, steps := ResolveSteps(reg, cap, req, plan, implicated, path, useInstant, options);
    actions := T.AllActions(steps);
    RequestActionsMeet(reg, cap, req, implicated, path, useInstant, options.PerOutput?);
    OthersAreSpared(runtime.desktop, reg, cap, req, implicated, path, options.PerOutput?, rows, first);
    result, progress, seen := RunSteps(runtime, preferences, store, reg, cap, req, outputs, steps, rows, saved,
          options);
    if result.Finished? {
      PlannedActionsAreSafe(runtime.session, old(runtime.desktop), reg, cap, req, implicated, path,
            options.PerOutput?, rows, saved, first, steps, seen);
    }
  }

  /** On what the transaction insists on, the planned actions start over nothing and disturb no seen sibling. */
  lemma PlannedActionsAreSafe(s: Session, desktop: T.Desktop, reg: Registry, cap: Capability, req: Request,
        implicated: seq<Backend>, path: string, perOutput: bool, rows: seq<Row>, saved: map<string, T.Recipe>,
        first: seq<(string, Ownership)>, steps: seq<T.TransitionStep>, seen: seq<(string, Ownership)>)
    requires Plan(reg, cap, req).Some? && RecipesMatchRows(rows, req.known, saved)
    requires T.Observed(first, req.known, desktop) && ReadOff(req, rows, first)
    requires T.Recoverable(desktop, Targets(req), saved)
    requires T.Observed(seen, req.known, desktop) && T.PairsHold(reg, s, steps, seen)
    requires steps != [] && Within(steps, Targets(req), cap.backend)
    ensures NeverStartsOver(desktop, cap, RequestActions(reg, cap, req, implicated, path, perOutput))
    ensures (forall o :: o in desktop ==> o in req.known) ==>
              SiblingsUndisturbed(s, reg, cap, req, desktop, seen,
                    RequestActions(reg, cap, req, implicated, path, perOutput))
  {
    var useInstant := SwitchesInstantly(Retired(reg, cap, req, implicated), req.running, cap.backend);
    PlannedOnWhatRuns(desktop, req, rows, saved, first);
    if forall o :: o in desktop ==> o in req.known {
      SeenSiblingsUndisturbed(s, desktop, reg, cap, req, implicated, path, perOutput, rows, first, steps, seen);
    }
    CleanEverywhere(desktop, reg, cap, req, implicated, path, useInstant, perOutput);
  }

  /** Hands the steps of an accepted request to the transaction. */
  method RunSteps(runtime: T.Runtime, preferences: T.Preferences, store: SessionIntents.SessionStore, reg: Registry,
        ghost cap: Capability, req: Request, outputs: seq<string>, steps: seq<T.TransitionStep>, ghost rows: seq<Row>,
        saved: map<string, T.Recipe>, ghost options: Options)
    returns (result: T.SwitchResult, ghost progress: T.Progress, ghost seen: seq<(string, Ownership)>)
    requires Plan(reg, cap, req).Some? && outputs == Targets(req) && Within(steps, Targets(req), cap.backend)
    requires Spans(steps, Targets(req), options.PerOutput?) && Serves(steps, options, Targets(req))
    requires T.ActionsMeet(T.AllActions(steps), Targets(req))
    requires forall o :: o !in Targets(req) ==> T.Spared(T.AllActions(steps), runtime.desktop, o)
    modifies runtime, preferences, store
    ensures runtime.faults >= old(runtime.faults) && preferences.refusals >= old(preferences.refusals)
    ensures forall o :: o !in Targets(req) ==> Get(runtime.desktop, o) == Get(old(runtime.desktop), o)
    ensures result.Refused? ==>
              && runtime.desktop == old(runtime.desktop) && runtime.log == old(runtime.log)
              && preferences.commits == old(preferences.commits) && store.intents == old(store.intents)
    ensures T.Attempts(progress, T.AllActions(steps)) && old(runtime.log) <= runtime.log
            && preferences.commits >= old(preferences.commits)
    ensures forall o :: !T.Touched(progress.attempted, o) ==> Get(runtime.desktop, o) == Get(old(runtime.desktop), o)
    ensures result.Finished? ==>
              && T.Observed(seen, req.known, old(runtime.desktop)) && T.PairsHold(reg, runtime.session, steps, seen)
              && T.Recoverable(old(runtime.desktop), Targets(req), saved)
              && CarriedOut(result.report, req, options, T.AllActions(steps), progress, old(runtime.desktop),
                            runtime.desktop, runtime.log[|old(runtime.log)|..],
                            preferences.commits - old(preferences.commits),
                            runtime.faults + preferences.refusals > old(runtime.faults + preferences.refusals) + 1)
              && (if result.report.outcome.Applied? then SessionIntents.Recorded(store, Targets(req), false)
                  else store.intents == old(store.intents))
              && old(runtime.confirmed) <= runtime.confirmed
              && T.Cleared(runtime.confirmed[|old(runtime.confirmed)|..], Targets(req), old(runtime.desktop),
                           |old(runtime.log)|)
    ensures !(result.Finished? && result.report.outcome.Applied?) ==>
              || runtime.faults > old(runtime.faults) || preferences.refusals > old(preferences.refusals)
              || Unready(reg, cap, runtime.session, req, rows, saved, false, options.PerOutput?, old(runtime.desktop))
  {
    var batch := T.Batch(outputs, req.known, steps);
    result, progress, seen := T.Execute(runtime, preferences, store, reg, batch, saved);
    if result.Finished? {
      FinishedIsCarriedOut(result.report, req, options, steps, progress, old(runtime.desktop),
            runtime.desktop, runtime.log[|old(runtime.log)|..],
            runtime.faults + preferences.refusals > old(runtime.faults + preferences.refusals) + 1);
    }
    if T.Unfit(old(runtime.desktop), batch, saved) || !T.PairsFit(reg, runtime.session, batch, old(runtime.desktop)) {
      UnfitIsUnready(reg, cap, runtime.session, req, rows, saved, false, options.PerOutput?, old(runtime.desktop),
            steps);
    }
  }

  /** The report of the transaction, read as a report on the request. */
  lemma FinishedIsCarriedOut(report: T.Report, req: Request, options: Options, steps: seq<T.TransitionStep>,
        progress: T.Progress, before: T.Desktop, now: T.Desktop, started: seq<ExecAction>, failed: bool)
    requires Serves(steps, options, Targets(req)) && T.ActionsMeet(T.AllActions(steps), Targets(req))
    requires T.Attempts(progress, T.AllActions(steps))
    requires var batch := T.Batch(Targets(req), req.known, steps);
             if report.outcome.Applied? then T.AppliedAll(report, batch, now, started)
             else T.Compensated(report, batch, progress, before, now, started, failed)
    ensures CarriedOut(report, req, options, T.AllActions(steps), progress, before, now, started,
              if report.outcome.Applied? then 1 else 0, failed)
  {
    if report.outcome.Applied? {
      ServedShows(now, steps, options, Targets(req));
    }
  }

  lemma ServedShows(desktop: T.Desktop, steps: seq<T.TransitionStep>, options: Options, targets: seq<string>)
    requires Serves(steps, options, targets) && forall s :: s in steps ==> T.Shows(desktop, s, targets)
    ensures forall o :: o in targets && Wanted(options, o).Some? ==> Get(desktop, o) == Wanted(options, o)
  {
  }

  /** The running list was read off a truthful observation. */
  ghost predicate ReadOff(req: Request, rows: seq<Row>, seen: seq<(string, Ownership)>) {
    (req.target.AllDisplays? || T.Sure(seen)) && CleanStarts.OverlaidList(req, rows, seen)
  }

  /** Observes, derives the running list and plans; nothing is changed. */
  method PlanObserved(runtime: T.Runtime, reg: Registry, cap: Capability, target: DisplayTarget, known: seq<string>,
        rows: seq<Row>, implicated: seq<Backend>, inspectionFailed: bool)
    returns (r: Result<(Request, seq<PlannedAction>), ApplyError>, ghost req: Request,
          ghost seen: seq<(string, Ownership)>)
    requires ValidKnown(known) && UniqueTargets(rows)
    modifies runtime`faults
    ensures req.target == target && req.known == known && req.backend == cap.backend
    ensures runtime.faults >= old(runtime.faults)
    ensures r.Success? ==>
              && r.value.0 == req && Plan(reg, cap, req) == Some(r.value.1)
              && T.Observed(seen, known, runtime.desktop) && ReadOff(req, rows, seen)
    ensures r.Failure? && r.error.Rejected? ==> Plan(reg, cap, req).None? && Blames(reg, cap, req, r.error.why)
    ensures r.Success? || r.error.Rejected? ==>
              ListsWhatRuns(req, rows, runtime.desktop, runtime.faults > old(runtime.faults))
    ensures r.Failure? && r.error.Unobserved? ==>
              || runtime.faults > old(runtime.faults) || inspectionFailed
              || (target.AllDisplays? && !Expandable(rows, known))
    ensures r.Success? ==> !inspectionFailed && (target.AllDisplays? ==> Expandable(rows, known))
  {
    req := Request(target, cap.backend, known, []);
    var ownership := runtime.ObserveOwnership(known);
    seen := ownership;
    var snapshot := OwnershipSnapshot(ownership, implicated, inspectionFailed);
    var running := RunningAssignmentsFromObservation(target, rows, known, snapshot);
    if running.Failure? {
      return Failure(Unobserved(running.error)), req, seen;
    }
    var request := Request(target, cap.backend, known, running.value);
    ObservedIsListed(request, rows, ownership, runtime.desktop, runtime.faults > old(runtime.faults));
    var plan := PlanWithCapability(request, reg, cap);
    if plan.Failure? {
      return Failure(Rejected(plan.error)), request, seen;
    }
    return Success((request, plan.value)), request, seen;
  }

  lemma ObservedIsListed(req: Request, rows: seq<Row>, seen: seq<(string, Ownership)>, desktop: T.Desktop,
        failed: bool)
    requires T.Observed(seen, req.known, desktop) && (!failed ==> T.Sure(seen))
    requires CleanStarts.OverlaidList(req, rows, seen) && (!req.target.AllDisplays? ==> T.Sure(seen))
    ensures ListsWhatRuns(req, rows, desktop, failed)
  {
    forall o | o in req.known
      ensures || Lookup(req.running, o) == Get(T.Backends(desktop), o)
              || (failed && req.target.AllDisplays? && Lookup(req.running, o) == SavedBackend(rows, req.known, o))
    {
      var k :| 0 <= k < |req.known| && req.known[k] == o;
      assert seen[k].0 == o;
      OwnerFound(seen, o);
      var i :| 0 <= i < |seen| && seen[i] == (o, Owner(seen, o).value);
    }
  }

  /** A request for some outputs is planned on a list that is right about every connected output. */
  lemma TargetedListIsComplete(desktop: T.Desktop, req: Request, rows: seq<Row>, seen: seq<(string, Ownership)>,
        o: string)
    requires WellFormed(req) && T.Observed(seen, req.known, desktop) && ReadOff(req, rows, seen)
    requires !req.target.AllDisplays? && o in req.known && o in desktop
    ensures RunningAssignment(o, desktop[o].backend) in req.running
  {
    var k :| 0 <= k < |req.known| && req.known[k] == o;
    assert seen[k].0 == o;
    OwnerFound(seen, o);
    var i :| 0 <= i < |seen| && seen[i] == (o, Owner(seen, o).value);
    assert Lookup(req.running, o) == Some(desktop[o].backend);
  }

  /** No action of the request can change an output outside its targets. */
  lemma OthersAreSpared(desktop: T.Desktop, reg: Registry, cap: Capability, req: Request, implicated: seq<Backend>,
        path: string, perOutput: bool, rows: seq<Row>, seen: seq<(string, Ownership)>)
    requires Plan(reg, cap, req).Some? && T.Observed(seen, req.known, desktop) && ReadOff(req, rows, seen)
    ensures forall o :: o !in Targets(req) ==>
              T.Spared(RequestActions(reg, cap, req, implicated, path, perOutput), desktop, o)
  {
    var useInstant := SwitchesInstantly(Retired(reg, cap, req, implicated), req.running, cap.backend);
    forall o, a | o !in Targets(req) && a in RequestActions(reg, cap, req, implicated, path, perOutput)
      ensures T.SparedBy(a, desktop, o)
    {
      StepsOutOfReach(reg, cap, req, implicated, path, useInstant, perOutput, o);
      assert OutOfReach(a, req, o);
      if o in a.scope.outputs && o in desktop {
        TargetedListIsComplete(desktop, req, rows, seen, o);
      }
    }
  }

  /** The checks of planner and transaction together protect every sibling that was seen. */
  lemma SeenSiblingsUndisturbed(s: Session, desktop: T.Desktop, reg: Registry, cap: Capability, req: Request,
        implicated: seq<Backend>, path: string, perOutput: bool, rows: seq<Row>, first: seq<(string, Ownership)>,
        steps: seq<T.TransitionStep>, seen: seq<(string, Ownership)>)
    requires Plan(reg, cap, req).Some? && T.Observed(first, req.known, desktop) && ReadOff(req, rows, first)
    requires forall o :: o in desktop ==> o in req.known
    requires T.Observed(seen, req.known, desktop) && T.PairsHold(reg, s, steps, seen)
    requires steps != [] && Within(steps, Targets(req), cap.backend)
    ensures SiblingsUndisturbed(s, reg, cap, req, desktop, seen,
              RequestActions(reg, cap, req, implicated, path, perOutput))
  {
    var useInstant := SwitchesInstantly(Retired(reg, cap, req, implicated), req.running, cap.backend);
    var w := T.Backends(desktop);
    StepsExist(reg, cap, req, implicated, path, useInstant, perOutput);
    var all := RequestActions(reg, cap, req, implicated, path, perOutput);
    forall p, o | HonestIn(p, s, reg, cap) && o !in Targets(req) && (o in desktop ==> T.Definite(seen, o))
      ensures Get(Run(p, w, EraseAll(all)), o) == Get(w, o)
    {
      if o in desktop {
        TargetedListIsComplete(desktop, req, rows, first, o);
        SeenPairHolds(s, desktop, reg, cap, req, steps, seen, o);
        SiblingsStay(p, s, reg, cap, req, implicated, path, useInstant, perOutput, w, o);
      } else {
        VacantStaysVacant(p, reg, cap, req, implicated, path, useInstant, perOutput, w, o);
      }
    }
  }

  lemma SeenPairHolds(s: Session, desktop: T.Desktop, reg: Registry, cap: Capability, req: Request,
        steps: seq<T.TransitionStep>, seen: seq<(string, Ownership)>, o: string)
    requires Plan(reg, cap, req).Some? && !req.target.AllDisplays? && o !in Targets(req)
    requires T.Observed(seen, req.known, desktop) && T.PairsHold(reg, s, steps, seen)
    requires steps != [] && Within(steps, Targets(req), cap.backend)
    requires o in desktop && T.Definite(seen, o) && RunningAssignment(o, desktop[o].backend) in req.running
    ensures SideBySide(s, reg, cap, desktop[o].backend)
  {
    if desktop[o].backend == cap.backend {
      ListedInstancesCoexist(reg, cap, req, o);
    } else {
      var e := (o, Owner(seen, o).value);
      var i :| 0 <= i < |seen| && seen[i] == e;
      assert steps[0] in steps && T.PairHolds(reg, s, steps[0], e);
    }
  }

  lemma VacantStaysVacant(p: Physics, reg: Registry, cap: Capability, req: Request, implicated: seq<Backend>,
        path: string, useInstant: bool, perOutput: bool, w: World, o: string)
    requires Plan(reg, cap, req).Some? && o !in Targets(req) && o !in w
    ensures Steps(reg, cap, req, implicated, path, useInstant, perOutput).Success?
    ensures var all := Flatten(Steps(reg, cap, req, implicated, path, useInstant, perOutput).value);
            AllNamed(all) && o !in Run(p, w, EraseAll(all))
  {
    StepsExist(reg, cap, req, implicated, path, useInstant, perOutput);
    StepsOutOfReach(reg, cap, req, implicated, path, useInstant, perOutput, o);
    var all := Flatten(Steps(reg, cap, req, implicated, path, useInstant, perOutput).value);
    forall a | a in EraseAll(all) && a.Apply? ensures o !in a.outputs {
      var i :| 0 <= i < |all| && a == Erase(all[i]);
      assert OutOfReach(all[i], req, o);
    }
    StaysGone(p, w, EraseAll(all), o);
  }

  /** What the transaction insists on makes the running list complete on the targets. */
  lemma PlannedOnWhatRuns(desktop: T.Desktop, req: Request, rows: seq<Row>, saved: map<string, T.Recipe>,
        seen: seq<(string, Ownership)>)
    requires WellFormed(req) && T.Observed(seen, req.known, desktop)
    requires ReadOff(req, rows, seen)
    requires T.Recoverable(desktop, Targets(req), saved) && RecipesMatchRows(rows, req.known, saved)
    ensures CleanStarts.Listed(T.Backends(desktop), req.running, Targets(req))
  {
    var w := T.Backends(desktop);
    forall o | o in Targets(req) && o in w ensures SavedBackend(rows, req.known, o) == Some(w[o]) {
      assert Get(saved, o) == Some(desktop[o]);
    }
    forall o | o in Targets(req) ensures exists i :: 0 <= i < |seen| && seen[i].0 == o {
      var i :| 0 <= i < |req.known| && req.known[i] == o;
      assert seen[i].0 == o;
    }
    CleanStarts.ShownAsSavedIsListed(w, req, rows, seen);
  }

  lemma CleanEverywhere(desktop: T.Desktop, reg: Registry, cap: Capability, req: Request, implicated: seq<Backend>,
        path: string, useInstant: bool, perOutput: bool)
    requires Plan(reg, cap, req).Some? && CleanStarts.Listed(T.Backends(desktop), req.running, Targets(req))
    ensures Steps(reg, cap, req, implicated, path, useInstant, perOutput).Success?
    ensures NeverStartsOver(desktop, cap, Flatten(Steps(reg, cap, req, implicated, path, useInstant, perOutput).value))
  {
    StepsExist(reg, cap, req, implicated, path, useInstant, perOutput);
    var all := Flatten(Steps(reg, cap, req, implicated, path, useInstant, perOutput).value);
    var inPlace := !cap.RequiresStopBeforeSameTargetApply();
    forall p ensures CleanStarts.StartsClean(p, T.Backends(desktop), EraseAll(all), inPlace) {
      CleanStarts.StepsStartClean(p, reg, cap, req, implicated, path, useInstant, perOutput, T.Backends(desktop));
    }
  }
}
