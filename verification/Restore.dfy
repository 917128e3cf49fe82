/** Restore preflight: each step is planned against the desktop the earlier steps will leave. */
module Restore {
  import opened Prelude
  import opened Capabilities
  import opened Renderers
  import opened Planner
  import opened PlannerTheorems
  import DisplayPlan
  import opened ApplyPipeline
  import opened ApplySteps
  import opened DisplayState

  // ---------------------------------------------------------------- the accumulated running list

  function UpsertAll(list: seq<RunningAssignment>, outputs: seq<string>, b: Backend): seq<RunningAssignment>
    decreases |outputs|
  {
    if outputs == [] then list else UpsertAll(Upsert(list, outputs[0], b), outputs[1..], b)
  }

  function Updated(running: seq<RunningAssignment>, known: seq<string>, step: RestoreStep): seq<RunningAssignment> {
    match step.target
    case AllDisplays => Assigned(known, step.backend)
    case Output(o) => Upsert(running, o, step.backend)
    case Outputs(os) => UpsertAll(running, os, step.backend)
  }

  method UpdateRunningAfterStep(running: seq<RunningAssignment>, known: seq<string>, step: RestoreStep)
      returns (after: seq<RunningAssignment>)
    ensures after == Updated(running, known, step)
  {
    match step.target {
      case AllDisplays =>
        after := Assigned(known, step.backend);
      case Output(o) =>
        after := Upsert(running, o, step.backend);
      case Outputs(os) =>
        after := running;
        for i := 0 to |os|
          invariant UpsertAll(after, os[i..], step.backend) == UpsertAll(running, os, step.backend)
        {
          assert os[i..][1..] == os[i + 1..];
          after := Upsert(after, os[i], step.backend);
        }
    }
  }

  lemma UpsertIsCovered(list: seq<RunningAssignment>, o: string, b: Backend)
    ensures AsWorld(Upsert(list, o, b)) == AsWorld(list)[o := b]
  {
    forall x ensures Get(AsWorld(Upsert(list, o, b)), x) == Get(AsWorld(list)[o := b], x) {
      UpsertLookup(list, o, b, x);
      InWorld(Upsert(list, o, b), x);
      InWorld(list, x);
    }
    SameWorld(AsWorld(Upsert(list, o, b)), AsWorld(list)[o := b]);
  }

  lemma {:induction false} UpsertAllIsCovered(list: seq<RunningAssignment>, outputs: seq<string>, b: Backend)
    requires UniqueOutputs(list)
    ensures AsWorld(UpsertAll(list, outputs, b)) == Covered(AsWorld(list), outputs, b)
    ensures UniqueOutputs(UpsertAll(list, outputs, b))
    decreases |outputs|
  {
    if outputs != [] {
      UpsertIsCovered(list, outputs[0], b);
      UpsertUnique(list, outputs[0], b);
      UpsertAllIsCovered(Upsert(list, outputs[0], b), outputs[1..], b);
      CoveredInTurn(AsWorld(list), outputs, b);
    }
  }

  lemma CoveredInTurn(w: World, outputs: seq<string>, b: Backend)
    requires outputs != []
    ensures Covered(w[outputs[0] := b], outputs[1..], b) == Covered(w, outputs, b)
  {
    assert forall o :: o in outputs <==> o == outputs[0] || o in outputs[1..];
  }

  lemma AssignedIsCovered(known: seq<string>, b: Backend)
    requires Distinct(known)
    ensures UniqueOutputs(Assigned(known, b)) && AsWorld(Assigned(known, b)) == map o | o in known :: b
  {
    ExpandedTemplate(Assigned(known, b), known, b);
    var list := Assigned(known, b);
    forall o | o in known ensures Get(AsWorld(list), o) == Some(b) {
      InWorld(list, o);
    }
    CoversKnown(AsWorld(list), known, b);
  }

  ghost function StepRequest(known: seq<string>, running: seq<RunningAssignment>, step: RestoreStep): Request {
    Request(step.target, step.backend, known, running)
  }

  /** Updating the list is covering the targets of the world it describes. */
  lemma UpdatedIsCovered(running: seq<RunningAssignment>, known: seq<string>, step: RestoreStep)
    requires WellFormed(StepRequest(known, running, step))
    ensures AsWorld(Updated(running, known, step))
            == Covered(AsWorld(running), Targets(StepRequest(known, running, step)), step.backend)
    ensures UniqueOutputs(Updated(running, known, step))
    ensures ValidRunning(Updated(running, known, step), known)
  {
    match step.target {
      case AllDisplays =>
        AssignedIsCovered(known, step.backend);
        RunningWithinKnown(StepRequest(known, running, step));
        CoveredAll(AsWorld(running), known, step.backend);
        ListWithinKnown(Assigned(known, step.backend), known);
      case Output(o) =>
        UpsertIsCovered(running, o, step.backend);
        UpsertUnique(running, o, step.backend);
        CoveredOne(AsWorld(running), o, step.backend);
      case Outputs(os) =>
        UpsertAllIsCovered(running, os, step.backend);
        UpsertAllMembers(running, os, step.backend);
        ListWithinKnown(UpsertAll(running, os, step.backend), known);
    }
  }

  lemma ListWithinKnown(list: seq<RunningAssignment>, known: seq<string>)
    requires ValidKnown(known) && UniqueOutputs(list) && forall a :: a in list ==> a.output in known
    ensures ValidRunning(list, known)
  {
  }

  lemma {:induction false} UpsertAllMembers(list: seq<RunningAssignment>, outputs: seq<string>, b: Backend)
    ensures forall a :: a in UpsertAll(list, outputs, b) ==> a in list || (a.backend == b && a.output in outputs)
    decreases |outputs|
  {
    if outputs != [] {
      UpsertAllMembers(Upsert(list, outputs[0], b), outputs[1..], b);
    }
  }

  // ---------------------------------------------------------------- preflight

  ghost function StepPlan(reg: Registry, known: seq<string>, running: seq<RunningAssignment>,
        step: RestoreStep): Option<seq<PlannedAction>> {
    match reg.capabilityFor(step.backend)
    case None => None
    case Some(cap) => Plan(reg, cap, StepRequest(known, running, step))
  }

  /** The plans of an accepted sequence, each against the list left by the steps before it. */
  ghost function Preflight(reg: Registry, known: seq<string>, running: seq<RunningAssignment>,
        steps: seq<RestoreStep>): Option<seq<seq<PlannedAction>>>
    decreases |steps|
  {
    if steps == [] then Some([])
    else
      match StepPlan(reg, known, running, steps[0])
      case None => None
      case Some(plan) =>
        match Preflight(reg, known, Updated(running, known, steps[0]), steps[1..])
        case None => None
        case Some(rest) => Some([plan] + rest)
  }

  function RunningAfter(running: seq<RunningAssignment>, known: seq<string>,
        steps: seq<RestoreStep>): seq<RunningAssignment>
    decreases |steps|
  {
    if steps == [] then running else RunningAfter(Updated(running, known, steps[0]), known, steps[1..])
  }

  datatype PreparedStep = PreparedStep(scope: ExecutionScope, backend: Backend, actions: seq<ExecAction>)

  datatype RestoreError = Rejected(why: Rejection) | BadScope(error: ScopeError)

  /** A step switches instantly when something stops first or its backend does not run yet. */
  predicate Instantly(plan: seq<PlannedAction>, running: seq<RunningAssignment>, b: Backend) {
    (exists a :: a in plan && !a.Apply?) || forall a :: a in running ==> a.backend != b
  }

  /** The translated form of one plan. */
  ghost predicate PreparedFrom(prepared: PreparedStep, step: RestoreStep, plan: seq<PlannedAction>, known: seq<string>,
        running: seq<RunningAssignment>) {
    && prepared.backend == step.backend
    && TransitionScope(step.target, known) == Success(prepared.scope)
    && Translate(plan, step.path, known, Instantly(plan, running, step.backend)) == Success(prepared.actions)
  }

  /** The reason given for refusing a step is true of it and the list it was planned against. */
  ghost predicate Refuses(reg: Registry, known: seq<string>, running: seq<RunningAssignment>, step: RestoreStep,
        why: Rejection) {
    match reg.capabilityFor(step.backend)
    case None => why == UnsupportedBackend
    case Some(cap) => Blames(reg, cap, StepRequest(known, running, step), why)
  }

  /** Plans and translates one step against the list left so far. */
  method PrepareStep(reg: Registry, known: seq<string>, running: seq<RunningAssignment>, step: RestoreStep)
      returns (r: Result<PreparedStep, RestoreError>)
    ensures r.Success? <==> StepPlan(reg, known, running, step).Some?
    ensures r.Failure? ==> r.error.Rejected? && Refuses(reg, known, running, step, r.error.why)
    ensures r.Success? ==> PreparedFrom(r.value, step, StepPlan(reg, known, running, step).value, known, running)
  {
    var sameBackendRunning := exists a :: a in running && a.backend == step.backend;
    var plan := DisplayPlan.PlanDisplayApply(Request(step.target, step.backend, known, running), reg);
    if plan.Failure? {
      return Failure(Rejected(plan.error));
    }
    var hasStop := exists a :: a in plan.value && !a.Apply?;
    var useInstant := hasStop || !sameBackendRunning;
    assert useInstant == Instantly(plan.value, running, step.backend);
    PreparationSucceeds(reg, known, running, step, useInstant);
    var actions := Translate(plan.value, step.path, known, useInstant);
    var scope := TransitionScope(step.target, known);
    return Success(PreparedStep(scope.value, step.backend, actions.value));
  }

  ghost predicate AllPrepared(prepared: seq<PreparedStep>, steps: seq<RestoreStep>, plans: seq<seq<PlannedAction>>,
        known: seq<string>, running: seq<RunningAssignment>) {
    && |prepared| == |steps| == |plans|
    && forall i :: 0 <= i < |steps| ==>
         PreparedFrom(prepared[i], steps[i], plans[i], known, RunningAfter(running, known, steps[..i]))
  }

  lemma {:induction false} RunningAfterSnoc(running: seq<RunningAssignment>, known: seq<string>,
        steps: seq<RestoreStep>, step: RestoreStep)
    ensures RunningAfter(running, known, steps + [step]) == Updated(RunningAfter(running, known, steps), known, step)
    decreases |steps|
  {
    if steps == [] {
      assert steps + [step] == [step] && [step][1..] == [];
    } else {
      assert (steps + [step])[1..] == steps[1..] + [step];
      RunningAfterSnoc(Updated(running, known, steps[0]), known, steps[1..], step);
    }
  }

  lemma OneMorePrepared(prepared: seq<PreparedStep>, steps: seq<RestoreStep>, i: nat, plans: seq<seq<PlannedAction>>,
        known: seq<string>, observed: seq<RunningAssignment>, next: PreparedStep, plan: seq<PlannedAction>)
    requires i < |steps| && AllPrepared(prepared, steps[..i], plans, known, observed)
    requires PreparedFrom(next, steps[i], plan, known, RunningAfter(observed, known, steps[..i]))
    ensures AllPrepared(prepared + [next], steps[..i + 1], plans + [plan], known, observed)
    ensures RunningAfter(observed, known, steps[..i + 1])
            == Updated(RunningAfter(observed, known, steps[..i]), known, steps[i])
  {
    assert steps[..i + 1] == steps[..i] + [steps[i]];
    RunningAfterSnoc(observed, known, steps[..i], steps[i]);
    assert forall j :: 0 <= j <= i ==> steps[..i + 1][..j] == steps[..j];
    assert forall j :: 0 <= j < i ==> steps[..i][..j] == steps[..j];
  }

  lemma AllPreparedTail(prepared: seq<PreparedStep>, steps: seq<RestoreStep>, plans: seq<seq<PlannedAction>>,
        known: seq<string>, running: seq<RunningAssignment>)
    requires steps != [] && AllPrepared(prepared, steps, plans, known, running)
    ensures PreparedFrom(prepared[0], steps[0], plans[0], known, running)
    ensures AllPrepared(prepared[1..], steps[1..], plans[1..], known, Updated(running, known, steps[0]))
  {
    assert steps[..0] == [];
    forall i | 0 <= i < |steps| - 1
      ensures RunningAfter(running, known, steps[..i + 1])
              == RunningAfter(Updated(running, known, steps[0]), known, steps[1..][..i])
    {
      assert steps[..i + 1][1..] == steps[1..][..i];
    }
  }

  /** The first steps are accepted with these plans, and these are what the rest is planned against. */
  ghost predicate PreflightedTo(reg: Registry, known: seq<string>, observed: seq<RunningAssignment>,
        steps: seq<RestoreStep>, i: nat, plans: seq<seq<PlannedAction>>, running: seq<RunningAssignment>)
    requires i <= |steps|
  {
    var rest := Preflight(reg, known, running, steps[i..]);
    Preflight(reg, known, observed, steps) == if rest.None? then None else Some(plans + rest.value)
  }

  lemma PreflightNext(reg: Registry, known: seq<string>, observed: seq<RunningAssignment>, steps: seq<RestoreStep>,
        i: nat, plans: seq<seq<PlannedAction>>, running: seq<RunningAssignment>)
    requires i < |steps| && PreflightedTo(reg, known, observed, steps, i, plans, running)
    ensures var plan := StepPlan(reg, known, running, steps[i]);
            if plan.None? then Preflight(reg, known, observed, steps).None?
            else PreflightedTo(reg, known, observed, steps, i + 1, plans + [plan.value],
                  Updated(running, known, steps[i]))
  {
    assert steps[i..][0] == steps[i] && steps[i..][1..] == steps[i + 1..];
    var plan := StepPlan(reg, known, running, steps[i]);
    if plan.Some? {
      var rest := Preflight(reg, known, Updated(running, known, steps[i]), steps[i + 1..]);
      if rest.Some? {
        assert plans + ([plan.value] + rest.value) == plans + [plan.value] + rest.value;
      }
    }
  }

  /** Some step is refused for that reason against the list the steps before it would leave. */
  ghost predicate SomeStepRefused(reg: Registry, known: seq<string>, observed: seq<RunningAssignment>,
        steps: seq<RestoreStep>, why: Rejection) {
    exists i :: 0 <= i < |steps| && Refuses(reg, known, RunningAfter(observed, known, steps[..i]), steps[i], why)
  }

  /** Succeeds exactly when every step is accepted against the list the earlier ones leave. */
  method PreflightSteps(reg: Registry, known: seq<string>, observed: seq<RunningAssignment>, steps: seq<RestoreStep>)
    returns (r: Result<seq<PreparedStep>, RestoreError>)
    ensures r.Success? <==> Preflight(reg, known, observed, steps).Some?
    ensures r.Success? ==>
              AllPrepared(r.value, steps, Preflight(reg, known, observed, steps).value, known, observed)
    ensures r.Failure? ==> r.error.Rejected? && SomeStepRefused(reg, known, observed, steps, r.error.why)
  {
    var running := observed;
    var prepared: seq<PreparedStep> := [];
    ghost var plans: seq<seq<PlannedAction>> := [];
    assert steps[0..] == steps && forall rest: seq<seq<PlannedAction>> :: plans + rest == rest;
    for i := 0 to |steps|
      invariant |prepared| == |plans| == i
      invariant AllPrepared(prepared, steps[..i], plans, known, observed)
      invariant running == RunningAfter(observed, known, steps[..i])
      invariant PreflightedTo(reg, known, observed, steps, i, plans, running)
    {
      PreflightNext(reg, known, observed, steps, i, plans, running);
      var step := PrepareStep(reg, known, running, steps[i]);
      if step.Failure? {
        return Failure(step.error);
      }
      OneMorePrepared(prepared, steps, i, plans, known, observed, step.value,
            StepPlan(reg, known, running, steps[i]).value);
      plans := plans + [StepPlan(reg, known, running, steps[i]).value];
      prepared := prepared + [step.value];
      running := UpdateRunningAfterStep(running, known, steps[i]);
    }
    assert steps[|steps|..] == [] && plans + [] == plans && steps[..|steps|] == steps;
    return Success(prepared);
  }

  function TransitionScope(target: DisplayTarget, known: seq<string>): Result<ExecutionScope, ScopeError> {
    match target
    case AllDisplays => NamedScope(known)
    case Output(o) => NamedScope([o])
    case Outputs(os) => NamedScope(os)
  }

  /** An accepted step can always be translated and scoped. */
  lemma PreparationSucceeds(reg: Registry, known: seq<string>, running: seq<RunningAssignment>, step: RestoreStep,
        useInstant: bool)
    requires StepPlan(reg, known, running, step).Some?
    ensures Translate(StepPlan(reg, known, running, step).value, step.path, known, useInstant).Success?
    ensures TransitionScope(step.target, known).Success?
  {
    var cap := reg.capabilityFor(step.backend).value;
    AcceptedPlanExecutable(reg, cap, StepRequest(known, running, step));
    TranslateSucceeds(StepPlan(reg, known, running, step).value, step.path, known, useInstant);
  }

  // ---------------------------------------------------------------- exact simulation

  /** The step cannot lose one of its own targets to another of its instances. */
  ghost predicate Isolated(p: Physics, step: RestoreStep) {
    step.target.Outputs? ==> |step.target.names| == 1 || !p.disturbs(step.backend, step.backend)
  }

  ghost predicate HonestFor(p: Physics, reg: Registry, b: Backend) {
    reg.capabilityFor(b).Some? ==> Honest(p, reg, reg.capabilityFor(b).value)
  }

  lemma OneStepIsSimulated(p: Physics, reg: Registry, known: seq<string>, running: seq<RunningAssignment>,
        step: RestoreStep)
    requires StepPlan(reg, known, running, step).Some? && HonestFor(p, reg, step.backend) && Isolated(p, step)
    ensures Run(p, AsWorld(running), StepPlan(reg, known, running, step).value)
            == AsWorld(Updated(running, known, step))
    ensures UniqueOutputs(Updated(running, known, step))
    ensures AsWorld(Updated(running, known, step))
            == Covered(AsWorld(running), Targets(StepRequest(known, running, step)), step.backend)
  {
    var cap, req := reg.capabilityFor(step.backend).value, StepRequest(known, running, step);
    UpdatedIsCovered(running, known, step);
    RunningWithinKnown(req);
    PlanReaches(p, reg, cap, req, AsWorld(running));
  }

  /** Running one more plan in front. */
  lemma RunInFront(p: Physics, w: World, next: World, plan: seq<PlannedAction>, rest: seq<seq<PlannedAction>>)
    requires Run(p, w, plan) == next
    ensures Run(p, w, Flatten([plan] + rest)) == Run(p, next, Flatten(rest))
  {
    assert ([plan] + rest)[1..] == rest;
    RunConcat(p, w, plan, Flatten(rest));
  }

  lemma {:induction false} WholePreflightIsSimulation(p: Physics, reg: Registry, known: seq<string>,
        running: seq<RunningAssignment>, steps: seq<RestoreStep>)
    requires Preflight(reg, known, running, steps).Some? && UniqueOutputs(running)
    requires forall s :: s in steps ==> HonestFor(p, reg, s.backend) && Isolated(p, s)
    ensures Run(p, AsWorld(running), Flatten(Preflight(reg, known, running, steps).value))
            == AsWorld(RunningAfter(running, known, steps))
    ensures UniqueOutputs(RunningAfter(running, known, steps))
    decreases |steps|
  {
    if steps != [] {
      PreflightUnfolds(reg, known, running, steps);
      assert steps[0] in steps;
      OneStepIsSimulated(p, reg, known, running, steps[0]);
      var next := Updated(running, known, steps[0]);
      WholePreflightIsSimulation(p, reg, known, next, steps[1..]);
      RunInFront(p, AsWorld(running), AsWorld(next), StepPlan(reg, known, running, steps[0]).value,
            Preflight(reg, known, next, steps[1..]).value);
    }
  }

  lemma {:induction false} PreflightLength(reg: Registry, known: seq<string>, running: seq<RunningAssignment>,
        steps: seq<RestoreStep>)
    requires Preflight(reg, known, running, steps).Some?
    ensures |Preflight(reg, known, running, steps).value| == |steps|
    decreases |steps|
  {
    if steps != [] {
      PreflightLength(reg, known, Updated(running, known, steps[0]), steps[1..]);
    }
  }

  lemma TakeUnfolds<T>(s: seq<T>, k: nat)
    requires 0 < k <= |s|
    ensures s[..k] == [s[0]] + s[1..][..k - 1]
  {
  }

  lemma {:induction false} PreflightPrefix(reg: Registry, known: seq<string>, running: seq<RunningAssignment>,
        steps: seq<RestoreStep>, plans: seq<seq<PlannedAction>>, k: nat)
    requires Preflight(reg, known, running, steps) == Some(plans) && |plans| == |steps| && k <= |steps|
    ensures Preflight(reg, known, running, steps[..k]) == Some(plans[..k])
    decreases k
  {
    if k == 0 {
      assert steps[..0] == [] && plans[..0] == [];
    } else {
      PreflightUnfolds(reg, known, running, steps);
      PreflightPrefix(reg, known, Updated(running, known, steps[0]), steps[1..], plans[1..], k - 1);
      PreflightFolds(reg, known, running, steps[0], steps[1..][..k - 1], plans[1..][..k - 1]);
      TakeUnfolds(steps, k);
      TakeUnfolds(plans, k);
    }
  }

  /**
   * After any prefix of an accepted sequence the accumulated list is the desktop the planned actions
   * have produced, with one entry per output.
   */
  lemma PreflightIsSimulation(p: Physics, reg: Registry, known: seq<string>, running: seq<RunningAssignment>,
        steps: seq<RestoreStep>, k: nat)
    requires Preflight(reg, known, running, steps).Some? && UniqueOutputs(running) && k <= |steps|
    requires forall s :: s in steps ==> HonestFor(p, reg, s.backend) && Isolated(p, s)
    ensures var plans := Preflight(reg, known, running, steps).value;
            && |plans| == |steps|
            && Run(p, AsWorld(running), Flatten(plans[..k])) == AsWorld(RunningAfter(running, known, steps[..k]))
            && UniqueOutputs(RunningAfter(running, known, steps[..k]))
  {
    PreflightLength(reg, known, running, steps);
    PreflightPrefix(reg, known, running, steps, Preflight(reg, known, running, steps).value, k);
    WholePreflightIsSimulation(p, reg, known, running, steps[..k]);
  }

  lemma PreflightFolds(reg: Registry, known: seq<string>, running: seq<RunningAssignment>, step: RestoreStep,
        later: seq<RestoreStep>, rest: seq<seq<PlannedAction>>)
    requires StepPlan(reg, known, running, step).Some?
    requires Preflight(reg, known, Updated(running, known, step), later) == Some(rest)
    ensures Preflight(reg, known, running, [step] + later)
         == Some([StepPlan(reg, known, running, step).value] + rest)
  {
    assert ([step] + later)[1..] == later;
  }

  lemma PreflightUnfolds(reg: Registry, known: seq<string>, running: seq<RunningAssignment>, steps: seq<RestoreStep>)
    requires steps != [] && Preflight(reg, known, running, steps).Some?
    ensures StepPlan(reg, known, running, steps[0]).Some?
    ensures Preflight(reg, known, Updated(running, known, steps[0]), steps[1..]).Some?
    ensures var plans := Preflight(reg, known, running, steps).value;
            && plans != [] && plans[0] == StepPlan(reg, known, running, steps[0]).value
            && plans[1..] == Preflight(reg, known, Updated(running, known, steps[0]), steps[1..]).value
  {
  }

  function ActionsOf(prepared: seq<PreparedStep>): (r: seq<seq<ExecAction>>)
    ensures |r| == |prepared| && forall i :: 0 <= i < |r| ==> r[i] == prepared[i].actions
  {
    seq(|prepared|, i requires 0 <= i < |prepared| => prepared[i].actions)
  }

  /** The translated actions of one step do what its plan does. */
  lemma PreparedMeansPlanned(p: Physics, reg: Registry, known: seq<string>, running: seq<RunningAssignment>,
        step: RestoreStep, prepared: PreparedStep, w: World)
    requires StepPlan(reg, known, running, step).Some? && forall o :: o in w ==> o in known
    requires PreparedFrom(prepared, step, StepPlan(reg, known, running, step).value, known, running)
    ensures AllNamed(prepared.actions)
    ensures Run(p, w, EraseAll(prepared.actions)) == Run(p, w, StepPlan(reg, known, running, step).value)
    ensures forall o :: o in Run(p, w, EraseAll(prepared.actions)) ==> o in known
  {
    var req, plan := StepRequest(known, running, step), StepPlan(reg, known, running, step).value;
    AcceptedPlanExecutable(reg, reg.capabilityFor(step.backend).value, req);
    TranslationKeepsMeaning(p, w, plan, step.path, known, Instantly(plan, running, step.backend));
    RunWithin(p, w, plan, known);
  }

  /** Actions that start only connected outputs never reach beyond them. */
  lemma {:induction false} RunWithin(p: Physics, w: World, actions: seq<PlannedAction>, known: seq<string>)
    requires StaysWithin(actions, known) && forall o :: o in w ==> o in known
    ensures forall o :: o in Run(p, w, actions) ==> o in known
    decreases |actions|
  {
    if actions != [] {
      assert actions[0] in actions && forall a :: a in actions[1..] ==> a in actions;
      RunWithin(p, Step(p, w, actions[0]), actions[1..], known);
    }
  }

  lemma ActionsInTurn(p: Physics, w: World, next: World, prepared: seq<PreparedStep>)
    requires prepared != [] && AllNamed(prepared[0].actions) && AllNamed(Flatten(ActionsOf(prepared[1..])))
    requires Run(p, w, EraseAll(prepared[0].actions)) == next
    ensures AllNamed(Flatten(ActionsOf(prepared)))
    ensures Run(p, w, EraseAll(Flatten(ActionsOf(prepared))))
            == Run(p, next, EraseAll(Flatten(ActionsOf(prepared[1..]))))
  {
    var rest := Flatten(ActionsOf(prepared[1..]));
    assert ActionsOf(prepared)[1..] == ActionsOf(prepared[1..]);
    EraseConcat(prepared[0].actions, rest);
    RunConcat(p, w, EraseAll(prepared[0].actions), EraseAll(rest));
  }

  /** Executing the prepared steps one after another leaves the desktop the accumulated list describes. */
  lemma {:induction false} PreparedSequenceReaches(p: Physics, reg: Registry, known: seq<string>,
        running: seq<RunningAssignment>, steps: seq<RestoreStep>, prepared: seq<PreparedStep>)
    requires Preflight(reg, known, running, steps).Some? && UniqueOutputs(running)
    requires forall s :: s in steps ==> HonestFor(p, reg, s.backend) && Isolated(p, s)
    requires AllPrepared(prepared, steps, Preflight(reg, known, running, steps).value, known, running)
    ensures AllNamed(Flatten(ActionsOf(prepared)))
    ensures Run(p, AsWorld(running), EraseAll(Flatten(ActionsOf(prepared))))
            == AsWorld(RunningAfter(running, known, steps))
    decreases |steps|
  {
    if steps != [] {
      PreflightUnfolds(reg, known, running, steps);
      AllPreparedTail(prepared, steps, Preflight(reg, known, running, steps).value, known, running);
      assert steps[0] in steps;
      OneStepIsSimulated(p, reg, known, running, steps[0]);
      RunningWithinKnown(StepRequest(known, running, steps[0]));
      PreparedMeansPlanned(p, reg, known, running, steps[0], prepared[0], AsWorld(running));
      PreparedSequenceReaches(p, reg, known, Updated(running, known, steps[0]), steps[1..], prepared[1..]);
      ActionsInTurn(p, AsWorld(running), AsWorld(Updated(running, known, steps[0])), prepared);
    }
  }

  // ---------------------------------------------------------------- named steps and their order

  /** What restore builds: one named output per step, no output twice. */
  ghost predicate DistinctNamedTargets(steps: seq<RestoreStep>) {
    && (forall s :: s in steps ==> s.target.Output?)
    && forall i, j :: 0 <= i < j < |steps| ==> steps[i].target != steps[j].target
  }

  /** `final` is `w` with every step's target on that step's backend, and nothing else changed. */
  ghost predicate Moves(w: World, steps: seq<RestoreStep>, final: World)
    requires forall s :: s in steps ==> s.target.Output?
  {
    && (forall s :: s in steps ==> Get(final, s.target.name) == Some(s.backend))
    && forall o :: Output(o) !in (set s | s in steps :: s.target) ==> Get(final, o) == Get(w, o)
  }

  lemma {:induction false} BuiltStepsAreDistinct(rows: seq<Row>, known: seq<string>)
    requires Distinct(known)
    ensures DistinctNamedTargets(BuildRestoreSteps(rows, known))
  {
    if known != [] {
      BuiltStepsAreDistinct(rows, known[1..]);
      RestoreStepsAreEffective(rows, known[1..]);
      var rest := BuildRestoreSteps(rows, known[1..]);
      forall j | 0 <= j < |rest| ensures rest[j].target != Output(known[0]) {
        assert rest[j] in rest;
      }
    }
  }

  /** Each restored output gets its step's backend; every other output keeps what was observed. */
  lemma {:induction false} FinalWorld(running: seq<RunningAssignment>, known: seq<string>, steps: seq<RestoreStep>)
    requires DistinctNamedTargets(steps) && UniqueOutputs(running)
    ensures var final := AsWorld(RunningAfter(running, known, steps));
            Moves(AsWorld(running), steps, final)
    decreases |steps|
  {
    if steps != [] {
      var o, rest := steps[0].target.name, steps[1..];
      assert steps[0] in steps;
      UpsertIsCovered(running, o, steps[0].backend);
      UpsertUnique(running, o, steps[0].backend);
      assert forall s :: s in rest ==> s in steps;
      FinalWorld(Upsert(running, o, steps[0].backend), known, rest);
      assert forall s :: s in steps <==> s == steps[0] || s in rest;
      assert Output(o) !in (set s | s in rest :: s.target);
    }
  }

  function OnBackend(steps: seq<RestoreStep>, b: Backend, wanted: bool): (r: seq<RestoreStep>)
    ensures forall s :: s in r <==> s in steps && (s.backend == b) == wanted
  {
    if steps == [] then []
    else
      var rest := OnBackend(steps[1..], b, wanted);
      if (steps[0].backend == b) == wanted then [steps[0]] + rest else rest
  }

  /** A stable sort that moves the shared image daemon to the front. */
  function AwwwFirst(steps: seq<RestoreStep>): seq<RestoreStep> {
    OnBackend(steps, Awww, true) + OnBackend(steps, Awww, false)
  }

  lemma {:induction false} OnBackendDistinct(steps: seq<RestoreStep>, b: Backend, wanted: bool)
    requires DistinctNamedTargets(steps)
    ensures DistinctNamedTargets(OnBackend(steps, b, wanted))
  {
    if steps != [] {
      assert forall s :: s in steps[1..] ==> s in steps;
      OnBackendDistinct(steps[1..], b, wanted);
      var rest := OnBackend(steps[1..], b, wanted);
      forall j | 0 <= j < |rest| ensures rest[j].target != steps[0].target {
        assert rest[j] in steps[1..];
      }
    }
  }

  lemma {:induction false} DistinctMembersDiffer(steps: seq<RestoreStep>, s: RestoreStep, t: RestoreStep)
    requires DistinctNamedTargets(steps) && s in steps && t in steps && s.target == t.target
    ensures s == t
  {
  }

  lemma AwwwFirstDistinct(steps: seq<RestoreStep>)
    requires DistinctNamedTargets(steps)
    ensures DistinctNamedTargets(AwwwFirst(steps)) && forall s :: s in AwwwFirst(steps) <==> s in steps
  {
    var awww, others := OnBackend(steps, Awww, true), OnBackend(steps, Awww, false);
    OnBackendDistinct(steps, Awww, true);
    OnBackendDistinct(steps, Awww, false);
    forall i, j | 0 <= i < |awww| && 0 <= j < |others| ensures awww[i].target != others[j].target {
      assert awww[i] in awww && others[j] in others;
      if awww[i].target == others[j].target {
        DistinctMembersDiffer(steps, awww[i], others[j]);
      }
    }
  }

  /**
   * When both orders are accepted, running the plans made for the image-daemon-first order and the
   * plans made for the original order leaves the same desktop.
   */
  lemma OrderDoesNotMatter(p: Physics, reg: Registry, known: seq<string>, running: seq<RunningAssignment>,
        steps: seq<RestoreStep>)
    requires DistinctNamedTargets(steps) && UniqueOutputs(running)
    requires Preflight(reg, known, running, steps).Some? && Preflight(reg, known, running, AwwwFirst(steps)).Some?
    requires forall s :: s in steps ==> HonestFor(p, reg, s.backend)
    ensures Run(p, AsWorld(running), Flatten(Preflight(reg, known, running, AwwwFirst(steps)).value))
         == Run(p, AsWorld(running), Flatten(Preflight(reg, known, running, steps).value))
  {
    var sorted := AwwwFirst(steps);
    AwwwFirstDistinct(steps);
    WholeSequence(p, reg, known, running, steps);
    WholeSequence(p, reg, known, running, sorted);
    FinalWorld(running, known, steps);
    FinalWorld(running, known, sorted);
    var a, b := AsWorld(RunningAfter(running, known, steps)), AsWorld(RunningAfter(running, known, sorted));
    SameMembersSameWorld(AsWorld(running), steps, sorted, a, b);
  }

  lemma SameMembersSameWorld(w: World, steps: seq<RestoreStep>, sorted: seq<RestoreStep>, a: World, b: World)
    requires (forall s :: s in sorted <==> s in steps) && (forall s :: s in steps ==> s.target.Output?)
    requires Moves(w, steps, a) && Moves(w, sorted, b)
    ensures a == b
  {
    var moved := set s | s in steps :: s.target;
    assert moved == set s | s in sorted :: s.target;
    forall o: string ensures Get(a, o) == Get(b, o) {
      if Output(o) in moved {
        var s :| s in steps && s.target == Output(o);
        assert s in sorted && Get(a, s.target.name) == Get(b, s.target.name);
      } else {
        assert Get(a, o) == Get(w, o) && Get(b, o) == Get(w, o);
      }
    }
    SameWorld(a, b);
  }

  /** The whole accepted sequence: final desktop, per restored output and elsewhere. */
  lemma WholeSequence(p: Physics, reg: Registry, known: seq<string>, running: seq<RunningAssignment>,
        steps: seq<RestoreStep>)
    requires DistinctNamedTargets(steps) && UniqueOutputs(running)
    requires Preflight(reg, known, running, steps).Some?
    requires forall s :: s in steps ==> HonestFor(p, reg, s.backend)
    ensures Run(p, AsWorld(running), Flatten(Preflight(reg, known, running, steps).value))
            == AsWorld(RunningAfter(running, known, steps))
    ensures var final := Run(p, AsWorld(running), Flatten(Preflight(reg, known, running, steps).value));
            Moves(AsWorld(running), steps, final)
  {
    WholePreflightIsSimulation(p, reg, known, running, steps);
    FinalWorld(running, known, steps);
  }
}
