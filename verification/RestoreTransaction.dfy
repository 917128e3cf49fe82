/** Restoring saved assignments as one transaction. */
module RestoreTransaction {
  import opened Prelude
  import opened Capabilities
  import opened Renderers
  import opened Planner
  import opened ApplyPipeline
  import opened ApplySteps
  import opened DisplayState
  import opened Observation
  import opened Restore
  import opened RestoreDesktop
  import opened RestoredActions
  import opened Sessions
  import SessionIntents
  import A = ApplyTransaction
  import T = SwitchTransaction

  function Names(steps: seq<RestoreStep>): (r: seq<string>)
    requires forall s :: s in steps ==> s.target.Output?
    ensures |r| == |steps| && forall i :: 0 <= i < |r| ==> r[i] == steps[i].target.name
  {
    seq(|steps|, i requires 0 <= i < |steps| => steps[i].target.name)
  }

  /** Every action of a prepared step names the output the step restores. */
  lemma PreparedActionsMeet(reg: Registry, known: seq<string>, running: seq<RunningAssignment>, step: RestoreStep,
        prepared: PreparedStep)
    requires step.target.Output? && StepPlan(reg, known, running, step).Some?
    requires PreparedFrom(prepared, step, StepPlan(reg, known, running, step).value, known, running)
    ensures prepared.scope == Named([step.target.name]) && prepared.backend == step.backend
    ensures step.target.name in known && !IsBlank(step.target.name)
    ensures forall a :: a in prepared.actions ==> MeetsTargets(a, [step.target.name])
  {
    var req, plan := StepRequest(known, running, step), StepPlan(reg, known, running, step).value;
    AcceptedPlanExecutable(reg, reg.capabilityFor(step.backend).value, req);
    assert step.target.name in [step.target.name] && step.target.name in known;
    TranslatedScopes(plan, step.path, known, Instantly(plan, running, step.backend), [step.target.name]);
  }

  /** The whole sequence meets the outputs it restores. */
  lemma SequenceMeets(reg: Registry, known: seq<string>, running: seq<RunningAssignment>, steps: seq<RestoreStep>,
        prepared: seq<PreparedStep>)
    requires (forall s :: s in steps ==> s.target.Output?) && Preflight(reg, known, running, steps).Some?
    requires AllPrepared(prepared, steps, Preflight(reg, known, running, steps).value, known, running)
    ensures forall i :: 0 <= i < |steps| ==>
              && prepared[i].scope == Named([steps[i].target.name]) && prepared[i].backend == steps[i].backend
              && steps[i].target.name in known && !IsBlank(steps[i].target.name)
    ensures forall i, a :: 0 <= i < |steps| && a in prepared[i].actions ==> MeetsTargets(a, [steps[i].target.name])
  {
    forall i | 0 <= i < |steps|
      ensures prepared[i].scope == Named([steps[i].target.name]) && prepared[i].backend == steps[i].backend
      ensures steps[i].target.name in known && !IsBlank(steps[i].target.name)
      ensures forall a :: a in prepared[i].actions ==> MeetsTargets(a, [steps[i].target.name])
    {
      assert steps[i] in steps;
      PlanAt(reg, known, running, steps, i);
      PreparedActionsMeet(reg, known, RunningAfter(running, known, steps[..i]), steps[i], prepared[i]);
    }
  }

  /** One transition step per prepared step, with the recipe saved for its output. */
  method Transitions(prepared: seq<PreparedStep>, outputs: seq<string>, recipes: map<string, T.Recipe>)
      returns (steps: seq<T.TransitionStep>)
    requires |prepared| == |outputs|
    ensures A.Carries(steps, ActionsOf(prepared))
    ensures forall i :: 0 <= i < |steps| ==>
              && steps[i].scope == prepared[i].scope && steps[i].backend == prepared[i].backend
              && steps[i].recipe == Get(recipes, outputs[i])
  {
    steps := [];
    for i := 0 to |prepared|
      invariant |steps| == i
      invariant forall j :: 0 <= j < i ==>
                  && steps[j].actions == prepared[j].actions && steps[j].scope == prepared[j].scope
                  && steps[j].backend == prepared[j].backend && steps[j].recipe == Get(recipes, outputs[j])
    {
      steps := steps +
          [T.TransitionStep(prepared[i].scope, prepared[i].backend, Get(recipes, outputs[i]), prepared[i].actions)];
    }
  }

  /** Where the executed actions lead, on every desktop the declarations allow. */
  ghost predicate LeadsTo(reg: Registry, known: seq<string>, running: seq<RunningAssignment>, steps: seq<RestoreStep>,
        actions: seq<ExecAction>, w: World)
    requires Preflight(reg, known, running, steps).Some?
  {
    AllNamed(actions) && forall p :: Run(p, w, EraseAll(actions)) == Run(p, w, Plans(reg, known, running, steps))
  }

  lemma SequenceLeadsTo(reg: Registry, known: seq<string>, running: seq<RunningAssignment>, steps: seq<RestoreStep>,
        prepared: seq<PreparedStep>, w: World)
    requires Preflight(reg, known, running, steps).Some? && forall o :: o in w ==> o in known
    requires AllPrepared(prepared, steps, Preflight(reg, known, running, steps).value, known, running)
    ensures LeadsTo(reg, known, running, steps, Flatten(ActionsOf(prepared)), w)
  {
    var quiet := Physics(b => false, (b, c) => false);
    PreparedDoTheSame(quiet, reg, known, running, steps, prepared, w);
    forall p ensures Run(p, w, EraseAll(Flatten(ActionsOf(prepared)))) == Run(p, w, Plans(reg, known, running, steps)) {
      PreparedDoTheSame(p, reg, known, running, steps, prepared, w);
    }
  }

  lemma AllActionsMeet(steps: seq<T.TransitionStep>, prepared: seq<PreparedStep>, outputs: seq<string>)
    requires A.Carries(steps, ActionsOf(prepared)) && |prepared| == |outputs|
    requires forall i, a :: 0 <= i < |outputs| && a in prepared[i].actions ==> MeetsTargets(a, [outputs[i]])
    ensures T.ActionsMeet(T.AllActions(steps), outputs)
  {
    forall a | a in T.AllActions(steps) ensures exists o :: o in T.ScopeOutputs(a.scope, outputs) && o in outputs {
      var s :| s in steps && a in s.actions;
      var i :| 0 <= i < |steps| && steps[i] == s;
      assert a in prepared[i].actions && MeetsTargets(a, [outputs[i]]);
      assert outputs[i] in T.ScopeOutputs(a.scope, outputs) && outputs[i] in outputs;
    }
  }

  twostate predicate Untouched(runtime: T.Runtime, preferences: T.Preferences, store: SessionIntents.SessionStore)
    reads runtime, preferences, store
  {
    && runtime.desktop == old(runtime.desktop) && runtime.log == old(runtime.log)
    && preferences.commits == old(preferences.commits) && store.intents == old(store.intents)
  }

  /** A restored output shows the recipe saved for it. */
  ghost predicate Restored(steps: seq<RestoreStep>, recipes: map<string, T.Recipe>, now: T.Desktop) {
    forall s :: s in steps && s.target.Output? && s.target.name in recipes ==>
          Get(now, s.target.name) == Get(recipes, s.target.name)
  }

  /** Everything that shows on a connected output is listed. */
  ghost predicate ListsAll(running: seq<RunningAssignment>, known: seq<string>, desktop: T.Desktop) {
    forall o :: o in known && o in desktop ==> RunningAssignment(o, desktop[o].backend) in running
  }

  /**
   * A plan is made on the true part of a desktop; it is made exactly when every step is accepted in
   * turn. The actions to execute are then the stop each output needs and its own start, step by step, and
   * lead where the plans do.
   */
  ghost predicate Planned(reg: Registry, known: seq<string>, running: seq<RunningAssignment>, steps: seq<RestoreStep>,
        accepted: bool, actions: seq<ExecAction>, desktop: T.Desktop)
  {
    && UniqueOutputs(running) && TruePart(running, T.Backends(desktop))
    && (accepted <==> Preflight(reg, known, running, steps).Some?)
    && (accepted ==> AsSaved(actions, reg, known, running, steps))
    && (accepted && (forall o :: o in desktop ==> o in known) ==>
          LeadsTo(reg, known, running, steps, actions, T.Backends(desktop)))
  }

  lemma NothingToRestore(reg: Registry, known: seq<string>, desktop: T.Desktop)
    ensures Planned(reg, known, [], [], true, [], desktop) && InDaemonOrder([], [])
  {
    assert Preflight(reg, known, [], []).Some?;
    assert SavedActions(reg, known, [], []) == [];
  }

  // ---------------------------------------------------------------- what a restore does to the desktop

  /** Nothing changes beside the targets, except where freeing one of them ends every renderer of a backend. */
  ghost predicate LeavesSiblings(reg: Registry, running: seq<RunningAssignment>, steps: seq<RestoreStep>,
        before: T.Desktop, now: T.Desktop) {
    forall o :: !IsTarget(steps, o) && (o in before ==> !Stopped(reg, running, steps, before[o].backend)) ==>
          Get(now, o) == Get(before, o)
  }

  /**
   * On every desktop honest to the session the actions leave each target on its backend, and leave alone
   * what is vacant and every listed sibling whose owner the transaction saw.
   */
  ghost predicate Settles(s: Session, reg: Registry, running: seq<RunningAssignment>, steps: seq<RestoreStep>,
        desktop: T.Desktop, seen: seq<(string, Ownership)>, actions: seq<ExecAction>) {
    && AllNamed(actions)
    && forall p :: HonestToAll(p, s, reg, steps) ==>
         SettledAs(running, steps, desktop, seen, Run(p, T.Backends(desktop), EraseAll(actions)))
  }

  ghost predicate SettledAs(running: seq<RunningAssignment>, steps: seq<RestoreStep>, desktop: T.Desktop,
        seen: seq<(string, Ownership)>, final: World) {
    && (forall t :: t in steps && t.target.Output? ==> Get(final, t.target.name) == Some(t.backend))
    && forall o :: !IsTarget(steps, o) && (o in desktop ==> SeenSibling(running, desktop, seen, o)) ==>
         Get(final, o) == Get(T.Backends(desktop), o)
  }

  predicate SeenSibling(running: seq<RunningAssignment>, desktop: T.Desktop, seen: seq<(string, Ownership)>,
        o: string)
    requires o in desktop
  {
    T.Definite(seen, o) && RunningAssignment(o, desktop[o].backend) in running
  }

  lemma SeenPairsHold(s: Session, reg: Registry, known: seq<string>, steps: seq<RestoreStep>,
        transitions: seq<T.TransitionStep>, desktop: T.Desktop, seen: seq<(string, Ownership)>)
    requires |steps| == |transitions| && forall i :: 0 <= i < |steps| ==>
               && steps[i].target.Output? && transitions[i].backend == steps[i].backend
               && transitions[i].scope == Named([steps[i].target.name])
    requires T.Observed(seen, known, desktop) && T.PairsHold(reg, s, transitions, seen)
    ensures StepsCoexist(s, reg, steps)
    ensures forall o, t :: o in desktop && T.Definite(seen, o) && !IsTarget(steps, o) && t in steps ==>
              reg.Coexist(s, t.backend, desktop[o].backend)
  {
    forall o, t | o in desktop && T.Definite(seen, o) && !IsTarget(steps, o) && t in steps
      ensures reg.Coexist(s, t.backend, desktop[o].backend)
    {
      var i :| 0 <= i < |steps| && steps[i] == t;
      var e := (o, Owner(seen, o).value);
      var k :| 0 <= k < |seen| && seen[k] == e;
      assert transitions[i] in transitions && t.target != Output(o) && T.PairHolds(reg, s, transitions[i], e);
    }
    forall t, u | t in steps && u in steps ensures reg.Coexist(s, t.backend, u.backend) {
      var i :| 0 <= i < |steps| && steps[i] == t;
      var j :| 0 <= j < |steps| && steps[j] == u;
      assert transitions[i] in transitions && transitions[j] in transitions;
    }
  }

  lemma SettlesBesideSeen(s: Session, reg: Registry, known: seq<string>, running: seq<RunningAssignment>,
        steps: seq<RestoreStep>, transitions: seq<T.TransitionStep>, desktop: T.Desktop,
        seen: seq<(string, Ownership)>, actions: seq<ExecAction>)
    requires DistinctNamedTargets(steps) && Planned(reg, known, running, steps, true, actions, desktop)
    requires |steps| == |transitions| && forall i :: 0 <= i < |steps| ==>
               && steps[i].target.Output? && transitions[i].backend == steps[i].backend
               && transitions[i].scope == Named([steps[i].target.name])
    requires T.Observed(seen, known, desktop) && T.PairsHold(reg, s, transitions, seen)
    ensures (forall o :: o in desktop ==> o in known) ==> Settles(s, reg, running, steps, desktop, seen, actions)
  {
    SeenPairsHold(s, reg, known, steps, transitions, desktop, seen);
    if forall o :: o in desktop ==> o in known {
      SequenceSettles(s, reg, known, running, steps, desktop, seen, actions);
    }
  }

  lemma SequenceSettles(s: Session, reg: Registry, known: seq<string>, running: seq<RunningAssignment>,
        steps: seq<RestoreStep>, desktop: T.Desktop, seen: seq<(string, Ownership)>, actions: seq<ExecAction>)
    requires DistinctNamedTargets(steps) && UniqueOutputs(running) && Preflight(reg, known, running, steps).Some?
    requires StepsCoexist(s, reg, steps)
    requires forall o, t :: o in desktop && T.Definite(seen, o) && !IsTarget(steps, o) && t in steps ==>
               reg.Coexist(s, t.backend, desktop[o].backend)
    requires LeadsTo(reg, known, running, steps, actions, T.Backends(desktop))
    ensures Settles(s, reg, running, steps, desktop, seen, actions)
  {
    var w := T.Backends(desktop);
    forall p | HonestToAll(p, s, reg, steps)
      ensures SettledAs(running, steps, desktop, seen, Run(p, w, EraseAll(actions)))
    {
      RestoreOnTheDesktop(p, s, reg, known, running, steps, w);
      forall o | !IsTarget(steps, o) && o in desktop && SeenSibling(running, desktop, seen, o)
        ensures !Taken(p, reg, running, steps, w[o])
      {
        ListedIsSpared(s, reg, known, running, steps, o, w[o]);
        StepsRegistered(reg, known, running, steps);
        SparedExactly(s, reg, running, steps, w[o]);
      }
    }
  }

  lemma SiblingsAreSpared(reg: Registry, known: seq<string>, running: seq<RunningAssignment>, steps: seq<RestoreStep>,
        prepared: seq<PreparedStep>, desktop: T.Desktop)
    requires DistinctNamedTargets(steps) && Preflight(reg, known, running, steps).Some?
    requires AllPrepared(prepared, steps, Preflight(reg, known, running, steps).value, known, running)
    ensures forall o :: !IsTarget(steps, o) && (o in desktop ==> !Stopped(reg, running, steps, desktop[o].backend)) ==>
              T.Spared(Flatten(ActionsOf(prepared)), desktop, o)
  {
    forall o, a | !IsTarget(steps, o) && (o in desktop ==> !Stopped(reg, running, steps, desktop[o].backend))
          && a in Flatten(ActionsOf(prepared))
      ensures T.SparedBy(a, desktop, o)
    {
      SequenceReaches(reg, known, running, steps, prepared, o);
      assert Reaches(a, reg, running, steps, o);
    }
  }

  /** What a finished restore has done; `failed` says whether anything failed beyond the first failure. */
  ghost predicate CarriedOut(report: T.Report, steps: seq<RestoreStep>, known: seq<string>,
        recipes: map<string, T.Recipe>, actions: seq<ExecAction>, progress: T.Progress, before: T.Desktop,
        now: T.Desktop, started: seq<ExecAction>, commits: nat, failed: bool)
    requires forall t :: t in steps ==> t.target.Output?
  {
    && T.Attempts(progress, actions)
    && (forall o :: !T.Touched(progress.attempted, o) ==> Get(now, o) == Get(before, o))
    && if report.outcome.Applied? then
         commits == 1 && started == actions && Restored(steps, recipes, now)
       else
         && commits == 0 && T.Summarises(report)
         && T.Reported(report.outputs, Names(steps), progress, Names(steps), before, now)
         && T.TakenBack(report.outputs, Names(steps), known, actions, progress, before, now, started, failed)
  }

  /** Reasons not to carry accepted steps out that lie in the steps, what is saved and the desktop. */
  ghost predicate Unready(reg: Registry, s: Session, known: seq<string>, steps: seq<RestoreStep>,
        saved: map<string, T.Recipe>, desktop: T.Desktop) {
    || |steps| > 32
    || (exists t :: t in steps && (t.backend.Feh? || (t.target.Output? && T.Unmatched(desktop, saved, t.target.name))))
    || (exists t, u :: t in steps && u in steps && !reg.Coexist(s, t.backend, u.backend))
    || exists t, o :: t in steps && o in known && o in desktop && t.target != Output(o)
         && !reg.Coexist(s, t.backend, desktop[o].backend)
  }

  /** The steps of the transaction are those of the restore, one named output each. */
  ghost predicate Mirrors(transitions: seq<T.TransitionStep>, steps: seq<RestoreStep>, known: seq<string>) {
    && |transitions| == |steps|
    && forall i :: 0 <= i < |steps| ==>
         && steps[i].target.Output? && transitions[i].backend == steps[i].backend
         && transitions[i].scope == Named([steps[i].target.name])
         && steps[i].target.name in known && !IsBlank(steps[i].target.name)
  }

  lemma MirrorOf(transitions: seq<T.TransitionStep>, steps: seq<RestoreStep>, known: seq<string>, t: T.TransitionStep)
      returns (u: RestoreStep)
    requires Mirrors(transitions, steps, known) && t in transitions
    ensures u in steps && u.backend == t.backend && u.target.Output? && t.scope == Named([u.target.name])
  {
    var i :| 0 <= i < |steps| && transitions[i] == t;
    u := steps[i];
  }

  lemma UnfitIsUnready(reg: Registry, s: Session, known: seq<string>, steps: seq<RestoreStep>,
        saved: map<string, T.Recipe>, desktop: T.Desktop, transitions: seq<T.TransitionStep>)
    requires DistinctNamedTargets(steps) && steps != [] && Mirrors(transitions, steps, known)
    requires T.Unfit(desktop, T.Batch(Names(steps), known, transitions), saved)
    ensures Unready(reg, s, known, steps, saved, desktop)
  {
    forall o | o in Names(steps)
      ensures o in known && !IsBlank(o) && exists u :: u in steps && u.target == Output(o)
    {
      var i :| 0 <= i < |steps| && Names(steps)[i] == o;
      assert steps[i] in steps;
    }
    if t :| t in transitions && t.backend.Feh? {
      var u := MirrorOf(transitions, steps, known, t);
    }
  }

  lemma UnfitPairsAreUnready(reg: Registry, s: Session, known: seq<string>, steps: seq<RestoreStep>,
        saved: map<string, T.Recipe>, desktop: T.Desktop, transitions: seq<T.TransitionStep>)
    requires DistinctNamedTargets(steps) && Mirrors(transitions, steps, known)
    requires !T.PairsFit(reg, s, T.Batch(Names(steps), known, transitions), desktop)
    ensures Unready(reg, s, known, steps, saved, desktop)
  {
    if t, u :| t in transitions && u in transitions && !reg.Coexist(s, t.backend, u.backend) {
      var x := MirrorOf(transitions, steps, known, t);
      var y := MirrorOf(transitions, steps, known, u);
    } else {
      var t, o :| t in transitions && o in known && o in desktop && !T.InNamed(t.scope, o)
          && !reg.Coexist(s, t.backend, desktop[o].backend);
      var u := MirrorOf(transitions, steps, known, t);
      assert u.target != Output(o);
    }
  }

  /**
   * One restore from observation to report. The running list is the true part of the desktop that was
   * seen as occupied; the steps are planned against it, the image daemon's first. Refused at any stage
   * it changes nothing, and nothing to restore is success. The actions are, step by step, the stop its
   * output needs and its own start. Carried out, they leave everything beside the targets alone at every
   * point of failure, except a sibling whose backend had to be stopped everywhere, which no listed one is;
   * applied, every restored output shows its saved recipe; otherwise what was attempted is taken back as
   * far as possible, and the report is true of each output and the summary of them. `sorted`, `running`,
   * `seen` and `actions` say in which order and on what it was planned, what the transaction saw and what
   * was to run.
   */
  method RestoreDisplays(runtime: T.Runtime, preferences: T.Preferences, store: SessionIntents.SessionStore,
        reg: Registry, known: seq<string>, steps: seq<RestoreStep>, recipes: map<string, T.Recipe>,
        saved: map<string, T.Recipe>)
    returns (r: Result<T.SwitchResult, RestoreError>, ghost sorted: seq<RestoreStep>,
          ghost running: seq<RunningAssignment>, ghost actions: seq<ExecAction>, ghost progress: T.Progress,
          ghost seen: seq<(string, Ownership)>)
    requires Distinct(known) && DistinctNamedTargets(steps)
    modifies runtime, preferences, store
    ensures InDaemonOrder(steps, sorted) && DistinctNamedTargets(sorted)
    ensures r.Failure? || r.value.Refused? ==> Untouched(runtime, preferences, store)
    ensures Planned(reg, known, running, sorted, r.Success?, actions, old(runtime.desktop))
    ensures r.Success? ==> DaemonStartsFirst(actions)
    ensures runtime.faults == old(runtime.faults) && steps != [] ==> ListsAll(running, known, old(runtime.desktop))
    ensures r.Failure? ==> r.error.Rejected? && SomeStepRefused(reg, known, running, sorted, r.error.why)
    ensures LeavesSiblings(reg, running, sorted, old(runtime.desktop), runtime.desktop)
    ensures r.Success? ==>
              forall a :: a in running && !IsTarget(steps, a.output) ==>
                    Get(runtime.desktop, a.output) == Get(old(runtime.desktop), a.output)
    ensures r.Success? && r.value.Finished? && steps != [] ==>
              && old(runtime.log) <= runtime.log && preferences.commits >= old(preferences.commits)
              && CarriedOut(r.value.report, sorted, known, recipes, actions, progress, old(runtime.desktop),
                            runtime.desktop, runtime.log[|old(runtime.log)|..],
                            preferences.commits - old(preferences.commits),
                            runtime.faults + preferences.refusals > old(runtime.faults + preferences.refusals) + 1)
              && (if r.value.report.outcome.Applied? then SessionIntents.Recorded(store, Names(sorted), false)
                  else store.intents == old(store.intents))
              && old(runtime.confirmed) <= runtime.confirmed
              && T.Cleared(runtime.confirmed[|old(runtime.confirmed)|..], Names(sorted), old(runtime.desktop),
                           |old(runtime.log)|)
              && T.Observed(seen, known, old(runtime.desktop))
              && ((forall o :: o in old(runtime.desktop) ==> o in known) ==>
                    Settles(runtime.session, reg, running, sorted, old(runtime.desktop), seen, actions))
    ensures steps == [] ==>
              r == Success(T.Finished(T.Report(T.AlreadySatisfied, []))) && Untouched(runtime, preferences, store)
    ensures steps != [] && r.Success? && !(r.value.Finished? && r.value.report.outcome.Applied?) ==>
              || runtime.faults > old(runtime.faults) || preferences.refusals > old(preferences.refusals)
              || Unready(reg, runtime.session, known, sorted, saved, old(runtime.desktop))
  {
    actions, running, progress, seen := [], [], T.Progress([], false, false), [];
    AwwwFirstDistinct(steps);
    AwwwFirstIsDaemonOrder(steps);
    if steps == [] {
      NothingToRestore(reg, known, runtime.desktop);
      return Success(T.Finished(T.Report(T.AlreadySatisfied, []))), [], running, actions, progress, seen;
    }
    var ordered := AwwwFirst(steps);
    sorted := ordered;
    var prepared;
    prepared, running, actions := PlanRestore(runtime, reg, known, ordered);
    if prepared.Failure? {
      return Failure(prepared.error), sorted, running, actions, progress, seen;
    }
    SavedStartsDaemonFirst(steps, sorted, actions, reg, known, running);
    var result;
    result, progress, seen := ExecutePrepared(runtime, preferences, store, reg, known, running, ordered,
          prepared.value, recipes, saved, actions);
    ListedStay(reg, known, running, sorted, old(runtime.desktop), runtime.desktop);
    return Success(result), sorted, running, actions, progress, seen;
  }

  lemma ListedStay(reg: Registry, known: seq<string>, running: seq<RunningAssignment>, steps: seq<RestoreStep>,
        before: T.Desktop, now: T.Desktop)
    requires DistinctNamedTargets(steps) && UniqueOutputs(running) && Preflight(reg, known, running, steps).Some?
    requires TruePart(running, T.Backends(before)) && LeavesSiblings(reg, running, steps, before, now)
    ensures forall a :: a in running && !IsTarget(steps, a.output) ==> Get(now, a.output) == Get(before, a.output)
  {
    forall a | a in running && !IsTarget(steps, a.output) ensures Get(now, a.output) == Get(before, a.output) {
      ListedIsNeverStopped(reg, known, running, steps, a.output, a.backend);
      assert RunningAssignment(a.output, a.backend) == a;
    }
  }

  /** The first half: looks at the desktop and plans every step against the accumulated list. */
  method PlanRestore(runtime: T.Runtime, reg: Registry, known: seq<string>, steps: seq<RestoreStep>)
      returns (r: Result<seq<PreparedStep>, RestoreError>, ghost running: seq<RunningAssignment>,
          ghost actions: seq<ExecAction>)
    requires Distinct(known) && DistinctNamedTargets(steps)
    modifies runtime`faults
    ensures Planned(reg, known, running, steps, r.Success?, actions, runtime.desktop)
    ensures runtime.faults >= old(runtime.faults)
    ensures runtime.faults == old(runtime.faults) ==> ListsAll(running, known, runtime.desktop)
    ensures r.Success? ==>
              && AllPrepared(r.value, steps, Preflight(reg, known, running, steps).value, known, running)
              && actions == Flatten(ActionsOf(r.value))
    ensures r.Failure? ==> r.error.Rejected? && SomeStepRefused(reg, known, running, steps, r.error.why)
  {
    actions := [];
    var ownership := runtime.ObserveOwnership(known);
    var listed := OccupiedAssignments(known, OwnershipSnapshot(ownership, [], false));
    running := listed;
    OccupiedIsTruePart(listed, ownership, T.Backends(runtime.desktop));
    if T.Sure(ownership) {
      SureListsAll(listed, ownership, known, runtime.desktop);
    }
    r := PreflightSteps(reg, known, listed, steps);
    if r.Success? {
      actions := Flatten(ActionsOf(r.value));
      PreparedAreAsSaved(reg, known, listed, steps, r.value);
      if forall o :: o in runtime.desktop ==> o in known {
        SequenceLeadsTo(reg, known, listed, steps, r.value, T.Backends(runtime.desktop));
      }
    }
  }

  lemma SureListsAll(running: seq<RunningAssignment>, seen: seq<(string, Ownership)>, known: seq<string>,
        desktop: T.Desktop)
    requires T.Observed(seen, known, desktop) && T.Sure(seen)
    requires forall o, b :: RunningAssignment(o, b) in running <==> (o, Occupied(b)) in seen
    ensures ListsAll(running, known, desktop)
  {
    forall o | o in known && o in desktop ensures RunningAssignment(o, desktop[o].backend) in running {
      var i :| 0 <= i < |known| && known[i] == o;
      assert seen[i] == (o, Occupied(desktop[o].backend)) && seen[i] in seen;
    }
  }

  /** The second half: hands the prepared steps to the transaction. */
  method ExecutePrepared(runtime: T.Runtime, preferences: T.Preferences, store: SessionIntents.SessionStore,
        reg: Registry, known: seq<string>, ghost running: seq<RunningAssignment>, steps: seq<RestoreStep>,
        prepared: seq<PreparedStep>, recipes: map<string, T.Recipe>, saved: map<string, T.Recipe>,
        ghost actions: seq<ExecAction>)
    returns (result: T.SwitchResult, ghost progress: T.Progress, ghost seen: seq<(string, Ownership)>)
    requires DistinctNamedTargets(steps) && Planned(reg, known, running, steps, true, actions, runtime.desktop)
    requires AllPrepared(prepared, steps, Preflight(reg, known, running, steps).value, known, running)
    requires actions == Flatten(ActionsOf(prepared)) && steps != []
    modifies runtime, preferences, store
    ensures runtime.faults >= old(runtime.faults) && preferences.refusals >= old(preferences.refusals)
    ensures result.Refused? ==> Untouched(runtime, preferences, store)
    ensures LeavesSiblings(reg, running, steps, old(runtime.desktop), runtime.desktop)
    ensures result.Finished? ==>
              && old(runtime.log) <= runtime.log && preferences.commits >= old(preferences.commits)
              && CarriedOut(result.report, steps, known, recipes, actions, progress, old(runtime.desktop),
                            runtime.desktop, runtime.log[|old(runtime.log)|..],
                            preferences.commits - old(preferences.commits),
                            runtime.faults + preferences.refusals > old(runtime.faults + preferences.refusals) + 1)
              && (if result.report.outcome.Applied? then SessionIntents.Recorded(store, Names(steps), false)
                  else store.intents == old(store.intents))
              && old(runtime.confirmed) <= runtime.confirmed
              && T.Cleared(runtime.confirmed[|old(runtime.confirmed)|..], Names(steps), old(runtime.desktop),
                           |old(runtime.log)|)
              && T.Observed(seen, known, old(runtime.desktop))
              && ((forall o :: o in old(runtime.desktop) ==> o in known) ==>
                    Settles(runtime.session, reg, running, steps, old(runtime.desktop), seen, actions))
    ensures !(result.Finished? && result.report.outcome.Applied?) ==>
              || runtime.faults > old(runtime.faults) || preferences.refusals > old(preferences.refusals)
              || Unready(reg, runtime.session, known, steps, saved, old(runtime.desktop))
  {
    var outputs := Names(steps);
    SequenceMeets(reg, known, running, steps, prepared);
    var transitions := Transitions(prepared, outputs, recipes);
    AllActionsMeet(transitions, prepared, outputs);
    A.CarriedActions(transitions, ActionsOf(prepared));
    result, progress, seen := RunTransitions(runtime, preferences, store, reg, known, outputs, steps, transitions,
          recipes, saved);
    SiblingsLeft(reg, known, running, steps, prepared, outputs, transitions, old(runtime.desktop), runtime.desktop);
    if result.Finished? {
      SettlesBesideSeen(runtime.session, reg, known, running, steps, transitions, old(runtime.desktop), seen, actions);
    }
  }

  /** Runs the steps as one batch. */
  method RunTransitions(runtime: T.Runtime, preferences: T.Preferences, store: SessionIntents.SessionStore,
        reg: Registry, known: seq<string>, outputs: seq<string>, ghost steps: seq<RestoreStep>,
        transitions: seq<T.TransitionStep>, ghost recipes: map<string, T.Recipe>, saved: map<string, T.Recipe>)
    returns (result: T.SwitchResult, ghost progress: T.Progress, ghost seen: seq<(string, Ownership)>)
    requires DistinctNamedTargets(steps) && steps != [] && outputs == Names(steps)
    requires Mirrors(transitions, steps, known) && T.ActionsMeet(T.AllActions(transitions), outputs)
    requires forall i :: 0 <= i < |steps| ==> transitions[i].recipe == Get(recipes, steps[i].target.name)
    modifies runtime, preferences, store
    ensures runtime.faults >= old(runtime.faults) && preferences.refusals >= old(preferences.refusals)
    ensures result.Refused? ==> Untouched(runtime, preferences, store)
    ensures T.LeavesOthers(T.Batch(outputs, known, transitions), old(runtime.desktop), runtime.desktop)
    ensures result.Finished? ==>
              && old(runtime.log) <= runtime.log && preferences.commits >= old(preferences.commits)
              && T.Observed(seen, known, old(runtime.desktop)) && T.PairsHold(reg, runtime.session, transitions, seen)
              && CarriedOut(result.report, steps, known, recipes, T.AllActions(transitions), progress,
                            old(runtime.desktop), runtime.desktop, runtime.log[|old(runtime.log)|..],
                            preferences.commits - old(preferences.commits),
                            runtime.faults + preferences.refusals > old(runtime.faults + preferences.refusals) + 1)
              && (if result.report.outcome.Applied? then SessionIntents.Recorded(store, Names(steps), false)
                  else store.intents == old(store.intents))
              && old(runtime.confirmed) <= runtime.confirmed
              && T.Cleared(runtime.confirmed[|old(runtime.confirmed)|..], Names(steps), old(runtime.desktop),
                           |old(runtime.log)|)
    ensures !(result.Finished? && result.report.outcome.Applied?) ==>
              || runtime.faults > old(runtime.faults) || preferences.refusals > old(preferences.refusals)
              || Unready(reg, runtime.session, known, steps, saved, old(runtime.desktop))
  {
    var batch := T.Batch(outputs, known, transitions);
    result, progress, seen := T.Execute(runtime, preferences, store, reg, batch, saved);
    if T.Unfit(old(runtime.desktop), batch, saved) {
      UnfitIsUnready(reg, runtime.session, known, steps, saved, old(runtime.desktop), transitions);
    } else if !T.PairsFit(reg, runtime.session, batch, old(runtime.desktop)) {
      UnfitPairsAreUnready(reg, runtime.session, known, steps, saved, old(runtime.desktop), transitions);
    }
    if result.Finished? {
      FinishedIsCarriedOut(result.report, steps, known, recipes, transitions, progress, old(runtime.desktop),
            runtime.desktop, runtime.log[|old(runtime.log)|..],
            runtime.faults + preferences.refusals > old(runtime.faults + preferences.refusals) + 1);
    }
  }

  /** The report of the transaction, read as a report on the restore. */
  lemma FinishedIsCarriedOut(report: T.Report, steps: seq<RestoreStep>, known: seq<string>,
        recipes: map<string, T.Recipe>, transitions: seq<T.TransitionStep>, progress: T.Progress, before: T.Desktop,
        now: T.Desktop, started: seq<ExecAction>, failed: bool)
    requires |steps| == |transitions| && forall i :: 0 <= i < |steps| ==>
               && steps[i].target.Output? && transitions[i].scope == Named([steps[i].target.name])
               && transitions[i].recipe == Get(recipes, steps[i].target.name)
    requires forall t :: t in steps ==> t.target.Output?
    requires T.Attempts(progress, T.AllActions(transitions))
    requires T.ActionsMeet(T.AllActions(transitions), Names(steps))
    requires forall o :: !T.Touched(progress.attempted, o) ==> Get(now, o) == Get(before, o)
    requires var batch := T.Batch(Names(steps), known, transitions);
             if report.outcome.Applied? then T.AppliedAll(report, batch, now, started)
             else T.Compensated(report, batch, progress, before, now, started, failed)
    ensures CarriedOut(report, steps, known, recipes, T.AllActions(transitions), progress, before, now, started,
              if report.outcome.Applied? then 1 else 0, failed)
  {
    if report.outcome.Applied? {
      ShownIsRestored(steps, transitions, Names(steps), recipes, now);
    }
  }

  lemma SiblingsLeft(reg: Registry, known: seq<string>, running: seq<RunningAssignment>, steps: seq<RestoreStep>,
        prepared: seq<PreparedStep>, outputs: seq<string>, transitions: seq<T.TransitionStep>, before: T.Desktop,
        now: T.Desktop)
    requires DistinctNamedTargets(steps) && Preflight(reg, known, running, steps).Some? && outputs == Names(steps)
    requires AllPrepared(prepared, steps, Preflight(reg, known, running, steps).value, known, running)
    requires T.AllActions(transitions) == Flatten(ActionsOf(prepared))
    requires T.LeavesOthers(T.Batch(outputs, known, transitions), before, now)
    ensures LeavesSiblings(reg, running, steps, before, now)
  {
    SiblingsAreSpared(reg, known, running, steps, prepared, before);
    forall o | o in outputs ensures IsTarget(steps, o) {
      var i :| 0 <= i < |outputs| && outputs[i] == o;
      assert steps[i] in steps && steps[i].target == Output(o);
    }
  }

  lemma ShownIsRestored(steps: seq<RestoreStep>, transitions: seq<T.TransitionStep>, outputs: seq<string>,
        recipes: map<string, T.Recipe>, now: T.Desktop)
    requires |steps| == |transitions| == |outputs|
    requires forall i :: 0 <= i < |steps| ==>
               && steps[i].target == Output(outputs[i]) && transitions[i].scope == Named([outputs[i]])
               && transitions[i].recipe == Get(recipes, outputs[i])
    requires forall s :: s in transitions ==> T.Shows(now, s, outputs)
    ensures Restored(steps, recipes, now)
  {
    forall s | s in steps && s.target.Output? && s.target.name in recipes
      ensures Get(now, s.target.name) == Get(recipes, s.target.name)
    {
      var i :| 0 <= i < |steps| && steps[i] == s;
      assert transitions[i] in transitions && outputs[i] in T.ScopeOutputs(transitions[i].scope, outputs);
    }
  }
}
