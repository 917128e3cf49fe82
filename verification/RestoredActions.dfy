/** What a restore comes down to: in which order, and which stop and which start for each output. */
module RestoredActions {
  import opened Prelude
  import opened Capabilities
  import opened Renderers
  import opened Planner
  import opened PlannerTheorems
  import opened ApplyPipeline
  import opened ApplySteps
  import opened DisplayState
  import opened Restore
  import opened RestoreDesktop
  import CleanStarts

  // ---------------------------------------------------------------- the order of the steps

  predicate SameClass(a: RestoreStep, b: RestoreStep) {
    a.backend.Awww? == b.backend.Awww?
  }

  /** The same steps; the image daemon's come first, and otherwise each keeps its place. */
  ghost predicate InDaemonOrder(given: seq<RestoreStep>, sorted: seq<RestoreStep>) {
    && |sorted| == |given| && (forall t :: t in sorted <==> t in given)
    && (forall i, j :: 0 <= i < j < |sorted| && sorted[j].backend.Awww? ==> sorted[i].backend.Awww?)
    && forall i, j :: 0 <= i < j < |given| && SameClass(given[i], given[j]) ==> Precedes(sorted, given[i], given[j])
  }

  lemma {:induction false} OnBackendKeepsOrder(steps: seq<RestoreStep>, b: Backend, wanted: bool, i: nat, j: nat)
    requires i < j < |steps| && (steps[i].backend == b) == (steps[j].backend == b) == wanted
    ensures Precedes(OnBackend(steps, b, wanted), steps[i], steps[j])
  {
    var rest, all := OnBackend(steps[1..], b, wanted), OnBackend(steps, b, wanted);
    if i == 0 {
      assert steps[1..][j - 1] == steps[j];
      var k :| 0 <= k < |rest| && rest[k] == steps[j];
      assert all[0] == steps[0] && all[k + 1] == steps[j];
    } else {
      OnBackendKeepsOrder(steps[1..], b, wanted, i - 1, j - 1);
      var k, l :| 0 <= k < l < |rest| && rest[k] == steps[i] && rest[l] == steps[j];
      if (steps[0].backend == b) == wanted {
        assert all[k + 1] == steps[i] && all[l + 1] == steps[j];
      } else {
        assert all[k] == steps[i] && all[l] == steps[j];
      }
    }
  }

  lemma {:induction false} OnBackendCounts(steps: seq<RestoreStep>, b: Backend)
    ensures |OnBackend(steps, b, true)| + |OnBackend(steps, b, false)| == |steps|
  {
    if steps != [] {
      OnBackendCounts(steps[1..], b);
    }
  }

  lemma PrecedesWithin(before: seq<RestoreStep>, steps: seq<RestoreStep>, after: seq<RestoreStep>, a: RestoreStep,
        b: RestoreStep)
    requires Precedes(steps, a, b)
    ensures Precedes(before + steps + after, a, b)
  {
    var i, j :| 0 <= i < j < |steps| && steps[i] == a && steps[j] == b;
    var all := before + steps + after;
    assert all[|before| + i] == a && all[|before| + j] == b;
  }

  /** Sorting is stable and brings the image daemon's steps to the front. */
  lemma AwwwFirstIsDaemonOrder(steps: seq<RestoreStep>)
    ensures InDaemonOrder(steps, AwwwFirst(steps))
  {
    var awww, others := OnBackend(steps, Awww, true), OnBackend(steps, Awww, false);
    OnBackendCounts(steps, Awww);
    forall i, j | 0 <= i < j < |steps| && SameClass(steps[i], steps[j])
      ensures Precedes(AwwwFirst(steps), steps[i], steps[j])
    {
      OnBackendKeepsOrder(steps, Awww, steps[i].backend.Awww?, i, j);
      if steps[i].backend.Awww? {
        PrecedesWithin([], awww, others, steps[i], steps[j]);
        assert [] + awww == awww;
      } else {
        PrecedesWithin(awww, others, [], steps[i], steps[j]);
        assert awww + others + [] == awww + others;
      }
    }
    forall i, j | 0 <= i < j < |AwwwFirst(steps)| && AwwwFirst(steps)[j].backend.Awww?
      ensures AwwwFirst(steps)[i].backend.Awww?
    {
      if j < |awww| {
        assert awww[i] in awww;
      }
    }
  }

  // ---------------------------------------------------------------- the actions of each step

  /** A renderer of the backend was running, or an earlier step has started one. */
  ghost predicate RunsAlready(running: seq<RunningAssignment>, before: seq<RestoreStep>, b: Backend) {
    || (exists t :: t in before && t.backend == b)
    || exists a :: a in running && a.backend == b && !IsTarget(before, a.output)
  }

  /** The stop of what showed on the step's own output at first, if it must go. */
  ghost function FirstStop(reg: Registry, known: seq<string>, running: seq<RunningAssignment>,
        step: RestoreStep): seq<ExecAction>
    requires step.target.Output? && reg.capabilityFor(step.backend).Some?
  {
    var o, cap := step.target.name, reg.capabilityFor(step.backend).value;
    match Lookup(running, o)
    case None => []
    case Some(b) =>
      if !CleanStarts.MustStop(cap, b) then []
      else [ExecStop(b, Named(if DeclaredWide(reg, cap, b) then known else [o]))]
  }

  /** That stop, and then the step's own start. */
  ghost function StepActions(reg: Registry, known: seq<string>, running: seq<RunningAssignment>, step: RestoreStep,
        before: seq<RestoreStep>): seq<ExecAction>
    requires step.target.Output? && reg.capabilityFor(step.backend).Some?
  {
    var stop := FirstStop(reg, known, running, step);
    var instant := stop != [] || !RunsAlready(running, before, step.backend);
    stop + [ExecApply(step.backend, step.path, Named([step.target.name]), instant)]
  }

  ghost predicate AllRegistered(reg: Registry, steps: seq<RestoreStep>) {
    forall t :: t in steps ==> t.target.Output? && reg.capabilityFor(t.backend).Some?
  }

  ghost function SavedActions(reg: Registry, known: seq<string>, running: seq<RunningAssignment>,
        steps: seq<RestoreStep>): (groups: seq<seq<ExecAction>>)
    requires AllRegistered(reg, steps)
    ensures |groups| == |steps|
    ensures forall i :: 0 <= i < |steps| ==> groups[i] == StepActions(reg, known, running, steps[i], steps[..i])
  {
    seq(|steps|, i requires 0 <= i < |steps| => StepActions(reg, known, running, steps[i], steps[..i]))
  }

  /** Step by step, the stop its output needs and its own start, and nothing else. */
  ghost predicate AsSaved(actions: seq<ExecAction>, reg: Registry, known: seq<string>,
        running: seq<RunningAssignment>, steps: seq<RestoreStep>) {
    AllRegistered(reg, steps) && actions == Flatten(SavedActions(reg, known, running, steps))
  }

  /** The list a later step is planned against, output by output. */
  ghost predicate Later(list: seq<RunningAssignment>, running: seq<RunningAssignment>, before: seq<RestoreStep>) {
    && UniqueOutputs(list)
    && (forall t :: t in before && t.target.Output? ==> Lookup(list, t.target.name) == Some(t.backend))
    && forall o :: !IsTarget(before, o) ==> Lookup(list, o) == Lookup(running, o)
  }

  lemma LaterNext(list: seq<RunningAssignment>, running: seq<RunningAssignment>, first: seq<RestoreStep>,
        last: RestoreStep)
    requires Later(list, running, first) && last.target.Output? && !IsTarget(first, last.target.name)
    ensures Later(Upsert(list, last.target.name, last.backend), running, first + [last])
  {
    var o, next := last.target.name, Upsert(list, last.target.name, last.backend);
    UpsertUnique(list, o, last.backend);
    forall x ensures Lookup(next, x) == if x == o then Some(last.backend) else Lookup(list, x) {
      UpsertLookup(list, o, last.backend, x);
    }
    assert last in first + [last];
    forall x | !IsTarget(first + [last], x) ensures !IsTarget(first, x) && x != o {
      assert forall t :: t in first ==> t in first + [last];
    }
  }

  lemma {:induction false} LaterList(running: seq<RunningAssignment>, known: seq<string>, before: seq<RestoreStep>)
    requires UniqueOutputs(running) && DistinctNamedTargets(before)
    ensures Later(RunningAfter(running, known, before), running, before)
    decreases |before|
  {
    if before != [] {
      var n := |before| - 1;
      var first, last := before[..n], before[n];
      assert before == first + [last] && last in before;
      forall t | t in first ensures t in before && t.target != last.target {
        var i :| 0 <= i < n && before[i] == t;
      }
      LaterList(running, known, first);
      RunningAfterSnoc(running, known, first, last);
      LaterNext(RunningAfter(running, known, first), running, first, last);
    }
  }

  lemma LaterBackends(running: seq<RunningAssignment>, known: seq<string>, before: seq<RestoreStep>, b: Backend)
    requires UniqueOutputs(running) && DistinctNamedTargets(before)
    ensures (exists a :: a in RunningAfter(running, known, before) && a.backend == b)
            <==> RunsAlready(running, before, b)
  {
    var list := RunningAfter(running, known, before);
    LaterList(running, known, before);
    if a :| a in list && a.backend == b {
      LookupUnique(list, a);
      if IsTarget(before, a.output) {
        var t :| t in before && t.target == Output(a.output);
      } else {
        assert RunningAssignment(a.output, b) in running;
      }
    }
    if t :| t in before && t.backend == b {
      assert RunningAssignment(t.target.name, b) in list;
    }
    if a :| a in running && a.backend == b && !IsTarget(before, a.output) {
      LookupUnique(running, a);
      assert RunningAssignment(a.output, b) in list;
    }
  }

  /** The plan of a named step, translated. */
  lemma PreparedActionsAre(reg: Registry, known: seq<string>, list: seq<RunningAssignment>, step: RestoreStep,
        prepared: PreparedStep)
    requires step.target.Output? && StepPlan(reg, known, list, step).Some?
    requires PreparedFrom(prepared, step, StepPlan(reg, known, list, step).value, known, list)
    ensures reg.capabilityFor(step.backend).Some?
    ensures var stop := FirstStop(reg, known, list, step);
            prepared.actions == stop + [ExecApply(step.backend, step.path, Named([step.target.name]),
                                              stop != [] || forall a :: a in list ==> a.backend != step.backend)]
  {
    var o, cap := step.target.name, reg.capabilityFor(step.backend).value;
    var plan := StepPlan(reg, known, list, step).value;
    var stops := TargetStops(reg, cap, list, o).value;
    var instant := Instantly(plan, list, step.backend);
    SingleGroup(cap, o);
    var start := Apply(step.backend, [o]);
    assert plan == stops + [start] && start in plan;
    TranslateOne(start, step.path, known, instant);
    if stops == [] {
      assert plan == [start];
    } else {
      assert plan == [stops[0], start] && plan[1..] == [start];
      assert stops[0] in plan;
    }
  }

  lemma TranslateOne(action: PlannedAction, path: string, known: seq<string>, useInstant: bool)
    ensures match ToExecAction(action, path, known, useInstant)
            case Failure(e) => Translate([action], path, known, useInstant) == Failure(e)
            case Success(a) => Translate([action], path, known, useInstant) == Success([a])
  {
    assert [action][1..] == [];
    var a := ToExecAction(action, path, known, useInstant);
    if a.Success? {
      assert [a.value] + [] == [a.value];
    }
  }

  /** Every prepared step of an accepted sequence is what its saved row asks for. */
  lemma PreparedAreAsSaved(reg: Registry, known: seq<string>, running: seq<RunningAssignment>,
        steps: seq<RestoreStep>, prepared: seq<PreparedStep>)
    requires DistinctNamedTargets(steps) && UniqueOutputs(running) && Preflight(reg, known, running, steps).Some?
    requires AllPrepared(prepared, steps, Preflight(reg, known, running, steps).value, known, running)
    ensures AsSaved(Flatten(ActionsOf(prepared)), reg, known, running, steps)
  {
    forall i | 0 <= i < |steps|
      ensures steps[i].target.Output? && reg.capabilityFor(steps[i].backend).Some?
      ensures prepared[i].actions == StepActions(reg, known, running, steps[i], steps[..i])
    {
      PlanAt(reg, known, running, steps, i);
      NoEarlierTarget(steps, i);
      PreparedIsAsSaved(reg, known, running, steps[i], steps[..i], prepared[i]);
    }
    assert ActionsOf(prepared) == SavedActions(reg, known, running, steps);
  }

  lemma NoEarlierTarget(steps: seq<RestoreStep>, i: nat)
    requires DistinctNamedTargets(steps) && i < |steps|
    ensures steps[i].target.Output? && DistinctNamedTargets(steps[..i]) && !IsTarget(steps[..i], steps[i].target.name)
  {
    assert steps[i] in steps;
    forall t | t in steps[..i] ensures t in steps && t.target != steps[i].target {
      var j :| 0 <= j < i && steps[j] == t;
    }
  }

  lemma PreparedIsAsSaved(reg: Registry, known: seq<string>, running: seq<RunningAssignment>, step: RestoreStep,
        before: seq<RestoreStep>, prepared: PreparedStep)
    requires UniqueOutputs(running) && DistinctNamedTargets(before)
    requires step.target.Output? && !IsTarget(before, step.target.name)
    requires StepPlan(reg, known, RunningAfter(running, known, before), step).Some?
    requires var list := RunningAfter(running, known, before);
             PreparedFrom(prepared, step, StepPlan(reg, known, list, step).value, known, list)
    ensures reg.capabilityFor(step.backend).Some?
    ensures prepared.actions == StepActions(reg, known, running, step, before)
  {
    var list := RunningAfter(running, known, before);
    PreparedActionsAre(reg, known, list, step, prepared);
    LaterList(running, known, before);
    LaterBackends(running, known, before, step.backend);
  }

  /** Each plan is made against the list the earlier steps leave. */
  lemma {:induction false} PlanAt(reg: Registry, known: seq<string>, running: seq<RunningAssignment>,
        steps: seq<RestoreStep>, i: nat)
    requires Preflight(reg, known, running, steps).Some? && i < |steps|
    ensures i < |Preflight(reg, known, running, steps).value|
    ensures StepPlan(reg, known, RunningAfter(running, known, steps[..i]), steps[i])
         == Some(Preflight(reg, known, running, steps).value[i])
    decreases |steps|
  {
    PreflightUnfolds(reg, known, running, steps);
    if i == 0 {
      assert steps[..0] == [];
    } else {
      var next, rest, before := Updated(running, known, steps[0]), steps[1..], steps[..i];
      PlanAt(reg, known, next, rest, i - 1);
      assert before[0] == steps[0] && before[1..] == rest[..i - 1];
      assert RunningAfter(running, known, before) == RunningAfter(next, known, rest[..i - 1]);
    }
  }

  // ---------------------------------------------------------------- starts of the image daemon come first

  ghost predicate DaemonStartsFirst(actions: seq<ExecAction>) {
    forall i, j :: 0 <= i < j < |actions| && actions[i].ExecApply? && StartsDaemon(actions[j]) ==>
          StartsDaemon(actions[i])
  }

  predicate StartsDaemon(a: ExecAction) {
    a.ExecApply? && a.backend.Awww?
  }

  /** Groups each of one backend's starts, the image daemon's groups first, make a list with its starts first. */
  lemma {:induction false} GroupsStartDaemonFirst(groups: seq<seq<ExecAction>>, backends: seq<Backend>)
    requires |groups| == |backends|
    requires forall k, a :: 0 <= k < |groups| && a in groups[k] && a.ExecApply? ==> a.backend == backends[k]
    requires forall k, l :: 0 <= k < l < |backends| && backends[l].Awww? ==> backends[k].Awww?
    ensures DaemonStartsFirst(Flatten(groups))
    ensures forall a :: a in Flatten(groups) && a.ExecApply? ==> a.backend in backends
  {
    if groups != [] {
      var rest := Flatten(groups[1..]);
      GroupsStartDaemonFirst(groups[1..], backends[1..]);
      var all := groups[0] + rest;
      forall i, j | 0 <= i < j < |all| && all[i].ExecApply? && StartsDaemon(all[j]) ensures StartsDaemon(all[i])
      {
        if i < |groups[0]| {
          assert all[i] in groups[0];
          if j < |groups[0]| {
            assert all[j] in groups[0];
          } else {
            assert all[j] == rest[j - |groups[0]|] && all[j] in rest && all[j].backend in backends[1..];
          }
        } else {
          assert all[i] == rest[i - |groups[0]|] && all[j] == rest[j - |groups[0]|];
        }
      }
      forall a | a in all && a.ExecApply? ensures a.backend in backends {
        if a in groups[0] {
          assert a.backend == backends[0];
        }
      }
    }
  }

  /** Nothing else is started before the last start of the image daemon. */
  lemma SavedStartsDaemonFirst(given: seq<RestoreStep>, steps: seq<RestoreStep>, actions: seq<ExecAction>,
        reg: Registry, known: seq<string>, running: seq<RunningAssignment>)
    requires InDaemonOrder(given, steps) && AsSaved(actions, reg, known, running, steps)
    ensures DaemonStartsFirst(actions)
  {
    var groups := SavedActions(reg, known, running, steps);
    var backends := seq(|steps|, i requires 0 <= i < |steps| => steps[i].backend);
    GroupsStartDaemonFirst(groups, backends);
  }
}
