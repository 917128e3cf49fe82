/**
 * Restore on the desktop as it is: the running list holds only outputs seen as occupied, so an output
 * of uncertain ownership shows something the planner does not know of.
 */
module RestoreDesktop {
  import opened Prelude
  import opened Capabilities
  import opened Renderers
  import opened Planner
  import opened PlannerTheorems
  import opened ApplyPipeline
  import opened ApplySteps
  import opened DisplayState
  import opened Observation
  import opened CleanStarts
  import opened Restore
  import opened Sessions

  /** Keeps the occupied outputs and drops everything else, uncertain ones included. */
  method OccupiedAssignments(known: seq<string>, snapshot: OwnershipSnapshot) returns (running: seq<RunningAssignment>)
    requires Distinct(known) && Observes(snapshot, known)
    ensures UniqueOutputs(running) && forall a :: a in running ==> a.output in known
    ensures forall o, b :: RunningAssignment(o, b) in running <==> (o, Occupied(b)) in snapshot.outputs
  {
    running := [];
    for i := 0 to |known|
      invariant UniqueOutputs(running) && forall a :: a in running ==> a.output in known[..i]
      invariant forall o, b :: RunningAssignment(o, b) in running <==> (o, Occupied(b)) in snapshot.outputs[..i]
    {
      var entry := snapshot.outputs[i];
      assert snapshot.outputs[..i + 1] == snapshot.outputs[..i] + [entry];
      assert known[..i + 1] == known[..i] + [known[i]];
      if entry.1.Occupied? {
        running := running + [RunningAssignment(entry.0, entry.1.backend)];
      }
    }
    assert known[..|known|] == known && snapshot.outputs[..|known|] == snapshot.outputs;
  }

  /** The list says nothing untrue; it may say too little. */
  ghost predicate TruePart(running: seq<RunningAssignment>, w: World) {
    forall a :: a in running ==> Get(w, a.output) == Some(a.backend)
  }

  lemma OccupiedIsTruePart(running: seq<RunningAssignment>, seen: seq<(string, Ownership)>, w: World)
    requires Truthful(seen, w) && forall o, b :: RunningAssignment(o, b) in running <==> (o, Occupied(b)) in seen
    ensures TruePart(running, w)
    ensures forall i :: 0 <= i < |seen| && !seen[i].1.Uncertain? ==>
              Get(AsWorld(running), seen[i].0) == Get(w, seen[i].0)
  {
    forall a | a in running ensures Get(w, a.output) == Some(a.backend) {
      assert RunningAssignment(a.output, a.backend) in running;
      var i :| 0 <= i < |seen| && seen[i] == (a.output, Occupied(a.backend));
    }
    forall i | 0 <= i < |seen| && !seen[i].1.Uncertain? ensures Get(AsWorld(running), seen[i].0) == Get(w, seen[i].0) {
      InWorld(running, seen[i].0);
      if seen[i].1.Occupied? {
        assert (seen[i].0, Occupied(seen[i].1.backend)) in seen;
      }
    }
  }

  // ---------------------------------------------------------------- the sequence of plans

  ghost function Plans(reg: Registry, known: seq<string>, running: seq<RunningAssignment>,
        steps: seq<RestoreStep>): seq<PlannedAction>
    requires Preflight(reg, known, running, steps).Some?
  {
    Flatten(Preflight(reg, known, running, steps).value)
  }

  predicate IsTarget(steps: seq<RestoreStep>, o: string) {
    exists s :: s in steps && s.target == Output(o)
  }

  /** A named step's plan: stops of registered backends, then one start on the target. */
  lemma StepShape(reg: Registry, known: seq<string>, running: seq<RunningAssignment>, step: RestoreStep)
    requires step.target.Output? && StepPlan(reg, known, running, step).Some?
    ensures var plan, o := StepPlan(reg, known, running, step).value, step.target.name;
            && reg.capabilityFor(step.backend).Some? && reg.capabilityFor(step.backend).value.backend == step.backend
            && plan != [] && plan[|plan| - 1] == Apply(step.backend, [o])
            && forall i :: 0 <= i < |plan| - 1 ==> !plan[i].Apply? && reg.capabilityFor(plan[i].backend).Some?
  {
    SingleGroup(reg.capabilityFor(step.backend).value, step.target.name);
  }

  /** Whatever was there, a named step leaves its target on its backend. */
  lemma StepCoversTarget(p: Physics, w: World, plan: seq<PlannedAction>, o: string, b: Backend)
    requires plan != [] && plan[|plan| - 1] == Apply(b, [o])
    ensures Get(Run(p, w, plan), o) == Some(b)
  {
    var n := |plan| - 1;
    assert plan == plan[..n] + [plan[n]];
    RunConcat(p, w, plan[..n], [plan[n]]);
    RunOne(p, Run(p, w, plan[..n]), plan[n]);
  }

  lemma PlansInTurn(p: Physics, reg: Registry, known: seq<string>, running: seq<RunningAssignment>,
        steps: seq<RestoreStep>, w: World)
    requires steps != [] && Preflight(reg, known, running, steps).Some?
    ensures StepPlan(reg, known, running, steps[0]).Some?
    ensures Preflight(reg, known, Updated(running, known, steps[0]), steps[1..]).Some?
    ensures Plans(reg, known, running, steps)
         == StepPlan(reg, known, running, steps[0]).value + Plans(reg, known, Updated(running, known, steps[0]),
               steps[1..])
    ensures Run(p, w, Plans(reg, known, running, steps))
         == Run(p, Run(p, w, StepPlan(reg, known, running, steps[0]).value),
               Plans(reg, known, Updated(running, known, steps[0]), steps[1..]))
  {
    PreflightUnfolds(reg, known, running, steps);
    RunConcat(p, w, StepPlan(reg, known, running, steps[0]).value,
          Plans(reg, known, Updated(running, known, steps[0]), steps[1..]));
  }

  lemma UpdatedUnique(reg: Registry, known: seq<string>, running: seq<RunningAssignment>, step: RestoreStep)
    requires StepPlan(reg, known, running, step).Some?
    ensures UniqueOutputs(Updated(running, known, step))
  {
    UpdatedIsCovered(running, known, step);
  }

  // ---------------------------------------------------------------- what the sequence does to siblings

  ghost predicate HonestToAll(p: Physics, s: Session, reg: Registry, steps: seq<RestoreStep>) {
    forall step :: step in steps ==> HonestToStep(p, s, reg, step.backend)
  }

  ghost predicate HonestToStep(p: Physics, s: Session, reg: Registry, b: Backend) {
    reg.capabilityFor(b).Some? ==> HonestIn(p, s, reg, reg.capabilityFor(b).value)
  }

  /** The step leaves a sibling that shows `b` alone, by the declarations and the session. */
  predicate Spares(s: Session, reg: Registry, running: seq<RunningAssignment>, step: RestoreStep, b: Backend) {
    step.target.Output? && reg.capabilityFor(step.backend).Some? ==>
      var cap := reg.capabilityFor(step.backend).value;
      SideBySide(s, reg, cap, b) && !StopsEverywhere(reg, cap, running, step.target.name, b)
  }

  /** The step takes the renderer of a sibling that shows `b` on the given desktop. */
  predicate Takes(p: Physics, reg: Registry, running: seq<RunningAssignment>, step: RestoreStep, b: Backend) {
    && step.target.Output? && reg.capabilityFor(step.backend).Some?
    && var cap := reg.capabilityFor(step.backend).value;
       p.disturbs(step.backend, b) || StopsEverywhere(reg, cap, running, step.target.name, b)
  }

  lemma LaterStepsSeeTheSame(running: seq<RunningAssignment>, known: seq<string>, step: RestoreStep, later: RestoreStep)
    requires step.target.Output? && later.target.Output? && step.target != later.target
    ensures Lookup(Updated(running, known, step), later.target.name) == Lookup(running, later.target.name)
  {
    UpsertLookup(running, step.target.name, step.backend, later.target.name);
  }

  predicate Taken(p: Physics, reg: Registry, running: seq<RunningAssignment>, steps: seq<RestoreStep>, b: Backend) {
    exists step :: step in steps && Takes(p, reg, running, step, b)
  }

  /** Some action takes the renderer of a sibling. */
  predicate AnyRemoves(p: Physics, actions: seq<PlannedAction>, b: Backend, o: string) {
    exists a :: a in actions && Removes(p, a, b, o)
  }

  lemma RemovesInParts(p: Physics, x: seq<PlannedAction>, y: seq<PlannedAction>, b: Backend, o: string)
    ensures AnyRemoves(p, x + y, b, o) <==> AnyRemoves(p, x, b, o) || AnyRemoves(p, y, b, o)
  {
    assert forall a :: a in x + y <==> a in x || a in y;
  }

  lemma OneStepRemoves(p: Physics, s: Session, reg: Registry, known: seq<string>, running: seq<RunningAssignment>,
        step: RestoreStep, b: Backend, o: string)
    requires step.target.Output? && StepPlan(reg, known, running, step).Some? && HonestToStep(p, s, reg, step.backend)
    requires step.target != Output(o)
    ensures AnyRemoves(p, StepPlan(reg, known, running, step).value, b, o) <==> Takes(p, reg, running, step, b)
  {
    StepShape(reg, known, running, step);
    NamedPlanRemoves(p, s, reg, reg.capabilityFor(step.backend).value, running, step.target.name, b, o);
  }

  /** The first step does not change what frees the targets of the later ones. */
  lemma TakenLater(p: Physics, reg: Registry, known: seq<string>, running: seq<RunningAssignment>,
        steps: seq<RestoreStep>, b: Backend)
    requires DistinctNamedTargets(steps) && steps != []
    ensures Taken(p, reg, running, steps, b)
            <==> Takes(p, reg, running, steps[0], b) || Taken(p, reg, Updated(running, known, steps[0]), steps[1..], b)
  {
    assert steps[0] in steps && forall t :: t in steps <==> t == steps[0] || t in steps[1..];
    forall t | t in steps[1..]
      ensures Takes(p, reg, Updated(running, known, steps[0]), t, b) <==> Takes(p, reg, running, t, b)
    {
      LaterStepsSeeTheSame(running, known, steps[0], t);
    }
  }

  /** The plans of the sequence take a renderer from a sibling exactly when some step does. */
  lemma {:induction false} SequenceRemoves(p: Physics, s: Session, reg: Registry, known: seq<string>,
        running: seq<RunningAssignment>, steps: seq<RestoreStep>, b: Backend, o: string)
    requires DistinctNamedTargets(steps) && Preflight(reg, known, running, steps).Some?
    requires HonestToAll(p, s, reg, steps) && !IsTarget(steps, o)
    ensures AnyRemoves(p, Plans(reg, known, running, steps), b, o) <==> Taken(p, reg, running, steps, b)
    decreases |steps|
  {
    if steps != [] {
      var first, rest, next := steps[0], steps[1..], Updated(running, known, steps[0]);
      assert first in steps && forall t :: t in rest ==> t in steps;
      PlansInTurn(p, reg, known, running, steps, map[]);
      OneStepRemoves(p, s, reg, known, running, first, b, o);
      SequenceRemoves(p, s, reg, known, next, rest, b, o);
      TakenLater(p, reg, known, running, steps, b);
      RemovesInParts(p, StepPlan(reg, known, running, first).value, Plans(reg, known, next, rest), b, o);
    }
  }

  /** Nothing is started on the output. */
  ghost predicate StartsElsewhere(actions: seq<PlannedAction>, o: string) {
    forall a :: a in actions && a.Apply? ==> o !in a.outputs
  }

  lemma StartsInParts(x: seq<PlannedAction>, y: seq<PlannedAction>, o: string)
    requires StartsElsewhere(x, o) && StartsElsewhere(y, o)
    ensures StartsElsewhere(x + y, o)
  {
    assert forall a :: a in x + y <==> a in x || a in y;
  }

  lemma StepStartsOnTarget(reg: Registry, known: seq<string>, running: seq<RunningAssignment>, step: RestoreStep,
        o: string)
    requires step.target.Output? && StepPlan(reg, known, running, step).Some? && step.target != Output(o)
    ensures StartsElsewhere(StepPlan(reg, known, running, step).value, o)
  {
    StepShape(reg, known, running, step);
    var plan := StepPlan(reg, known, running, step).value;
    forall a | a in plan && a.Apply? ensures o !in a.outputs {
      var i :| 0 <= i < |plan| && plan[i] == a;
    }
  }

  /** Starts only happen on targets. */
  lemma {:induction false} StartsOnTargets(reg: Registry, known: seq<string>, running: seq<RunningAssignment>,
        steps: seq<RestoreStep>, o: string)
    requires DistinctNamedTargets(steps) && Preflight(reg, known, running, steps).Some? && !IsTarget(steps, o)
    ensures StartsElsewhere(Plans(reg, known, running, steps), o)
    decreases |steps|
  {
    if steps != [] {
      var first, rest, next := steps[0], steps[1..], Updated(running, known, steps[0]);
      assert first in steps && first.target != Output(o) && forall t :: t in rest ==> t in steps;
      PlansInTurn(Physics(b => false, (b, c) => false), reg, known, running, steps, map[]);
      StepStartsOnTarget(reg, known, running, first, o);
      StartsOnTargets(reg, known, next, rest, o);
      StartsInParts(StepPlan(reg, known, running, first).value, Plans(reg, known, next, rest), o);
    }
  }

  /** A sibling keeps its renderer exactly when no step takes it. */
  lemma SiblingEnds(p: Physics, s: Session, reg: Registry, known: seq<string>, running: seq<RunningAssignment>,
        steps: seq<RestoreStep>, w: World, o: string)
    requires DistinctNamedTargets(steps) && Preflight(reg, known, running, steps).Some?
    requires HonestToAll(p, s, reg, steps) && !IsTarget(steps, o)
    ensures Get(Run(p, w, Plans(reg, known, running, steps)), o)
         == if o in w && !Taken(p, reg, running, steps, w[o]) then Some(w[o]) else None
  {
    StartsOnTargets(reg, known, running, steps, o);
    if o in w {
      SurvivesExactly(p, w, Plans(reg, known, running, steps), o);
      SequenceRemoves(p, s, reg, known, running, steps, w[o], o);
    } else {
      StaysGone(p, w, Plans(reg, known, running, steps), o);
    }
  }

  /** Every step spares the renderer exactly when no honest desktop lets one take it. */
  lemma SparedExactly(s: Session, reg: Registry, running: seq<RunningAssignment>, steps: seq<RestoreStep>, b: Backend)
    requires forall t :: t in steps ==>
               && t.target.Output? && reg.capabilityFor(t.backend).Some?
               && reg.capabilityFor(t.backend).value.backend == t.backend
    ensures HonestToAll(Worst(s, reg), s, reg, steps)
    ensures Taken(Worst(s, reg), reg, running, steps, b)
            <==> exists t :: t in steps && !Spares(s, reg, running, t, b)
    ensures (forall t :: t in steps ==> Spares(s, reg, running, t, b)) ==>
              forall p :: HonestToAll(p, s, reg, steps) ==> !Taken(p, reg, running, steps, b)
  {
    forall t | t in steps
      ensures HonestToStep(Worst(s, reg), s, reg, t.backend)
      ensures Takes(Worst(s, reg), reg, running, t, b) <==> !Spares(s, reg, running, t, b)
    {
      WorstIsHonest(s, reg, reg.capabilityFor(t.backend).value);
    }
    forall p, t | HonestToAll(p, s, reg, steps) && t in steps && Spares(s, reg, running, t, b)
      ensures !Takes(p, reg, running, t, b)
    {
      assert HonestToStep(p, s, reg, t.backend);
    }
  }

  /**
   * A sibling keeps its renderer on every desktop honest to the session exactly when each step spares
   * it: the pair holds in the session, and no target shows the same renderer and has to be freed by a stop
   * that ends all of them. Whether the planner knew of the sibling plays no part.
   */
  lemma SiblingSafeExactly(s: Session, reg: Registry, known: seq<string>, running: seq<RunningAssignment>,
        steps: seq<RestoreStep>, w: World, o: string)
    requires DistinctNamedTargets(steps) && Preflight(reg, known, running, steps).Some?
    requires !IsTarget(steps, o) && o in w
    ensures (forall p :: HonestToAll(p, s, reg, steps) ==>
               Get(Run(p, w, Plans(reg, known, running, steps)), o) == Some(w[o]))
            <==> forall step :: step in steps ==> Spares(s, reg, running, step, w[o])
  {
    StepsRegistered(reg, known, running, steps);
    SparedExactly(s, reg, running, steps, w[o]);
    forall p | HonestToAll(p, s, reg, steps)
      ensures Get(Run(p, w, Plans(reg, known, running, steps)), o) == Some(w[o])
              <==> !Taken(p, reg, running, steps, w[o])
    {
      SiblingEnds(p, s, reg, known, running, steps, w, o);
    }
  }

  /** Freeing some target ends every renderer of `b`. */
  predicate Stopped(reg: Registry, running: seq<RunningAssignment>, steps: seq<RestoreStep>, b: Backend) {
    exists t :: t in steps && StoppedBy(reg, running, t, b)
  }

  predicate StoppedBy(reg: Registry, running: seq<RunningAssignment>, t: RestoreStep, b: Backend) {
    && t.target.Output? && reg.capabilityFor(t.backend).Some?
    && StopsEverywhere(reg, reg.capabilityFor(t.backend).value, running, t.target.name, b)
  }

  lemma StoppedLater(reg: Registry, known: seq<string>, running: seq<RunningAssignment>, steps: seq<RestoreStep>,
        b: Backend)
    requires DistinctNamedTargets(steps) && steps != []
    ensures Stopped(reg, running, steps, b)
            <==> StoppedBy(reg, running, steps[0], b) || Stopped(reg, Updated(running, known, steps[0]), steps[1..], b)
  {
    assert steps[0] in steps && forall t :: t in steps <==> t == steps[0] || t in steps[1..];
    forall t | t in steps[1..]
      ensures StoppedBy(reg, Updated(running, known, steps[0]), t, b) <==> StoppedBy(reg, running, t, b)
    {
      LaterStepsSeeTheSame(running, known, steps[0], t);
    }
  }

  /** An accepted sequence never stops a listed sibling, and starts its backend only if instances coexist. */
  lemma {:induction false} ListedIsNeverStopped(reg: Registry, known: seq<string>, running: seq<RunningAssignment>,
        steps: seq<RestoreStep>, o: string, b: Backend)
    requires DistinctNamedTargets(steps) && UniqueOutputs(running) && Preflight(reg, known, running, steps).Some?
    requires !IsTarget(steps, o) && RunningAssignment(o, b) in running
    ensures !Stopped(reg, running, steps, b)
    ensures forall t :: t in steps && t.backend == b ==>
              reg.capabilityFor(b).Some? && reg.capabilityFor(b).value.InstancesCoexist()
    decreases |steps|
  {
    if steps != [] {
      var first, rest, next := steps[0], steps[1..], Updated(running, known, steps[0]);
      assert first in steps && first.target != Output(o) && forall t :: t in steps <==> t == first || t in rest;
      PreflightUnfolds(reg, known, running, steps);
      StepShape(reg, known, running, first);
      ListedIsNotStopped(reg, reg.capabilityFor(first.backend).value, running, first.target.name, o, b);
      UpdatedUnique(reg, known, running, first);
      StillListed(running, first.target.name, first.backend, o, b);
      assert !IsTarget(rest, o);
      ListedIsNeverStopped(reg, known, next, rest, o, b);
      StoppedLater(reg, known, running, steps, b);
    }
  }

  /** Only the session can be against a listed sibling. */
  lemma ListedIsSpared(s: Session, reg: Registry, known: seq<string>, running: seq<RunningAssignment>,
        steps: seq<RestoreStep>, o: string, b: Backend)
    requires DistinctNamedTargets(steps) && UniqueOutputs(running) && Preflight(reg, known, running, steps).Some?
    requires !IsTarget(steps, o) && RunningAssignment(o, b) in running
    requires forall t :: t in steps && t.backend != b ==> reg.Coexist(s, t.backend, b)
    ensures forall t :: t in steps ==> Spares(s, reg, running, t, b)
  {
    ListedIsNeverStopped(reg, known, running, steps, o, b);
    StepsRegistered(reg, known, running, steps);
    forall t | t in steps ensures Spares(s, reg, running, t, b) {
      assert !StoppedBy(reg, running, t, b);
    }
  }

  lemma StillListed(running: seq<RunningAssignment>, target: string, backend: Backend, o: string, b: Backend)
    requires UniqueOutputs(running) && RunningAssignment(o, b) in running && o != target
    ensures RunningAssignment(o, b) in Upsert(running, target, backend)
  {
    LookupUnique(running, RunningAssignment(o, b));
    UpsertLookup(running, target, backend, o);
  }

  /** The session permits every two steps, as far as their backends differ. */
  predicate StepsCoexist(s: Session, reg: Registry, steps: seq<RestoreStep>) {
    forall t, u :: t in steps && u in steps && t.backend != u.backend ==> reg.Coexist(s, t.backend, u.backend)
  }

  /** Every restored output ends on its step's backend, whatever it really showed. */
  lemma {:induction false} TargetsReached(p: Physics, s: Session, reg: Registry, known: seq<string>,
        running: seq<RunningAssignment>, steps: seq<RestoreStep>, w: World, t: RestoreStep)
    requires DistinctNamedTargets(steps) && UniqueOutputs(running) && Preflight(reg, known, running, steps).Some?
    requires HonestToAll(p, s, reg, steps) && StepsCoexist(s, reg, steps) && t in steps
    ensures Get(Run(p, w, Plans(reg, known, running, steps)), t.target.name) == Some(t.backend)
    decreases |steps|
  {
    var first, rest, next, o := steps[0], steps[1..], Updated(running, known, steps[0]), t.target.name;
    assert first in steps && t.target.Output? && forall u :: u in rest ==> u in steps;
    var plan := StepPlan(reg, known, running, first).value;
    var w1 := Run(p, w, plan);
    PlansInTurn(p, reg, known, running, steps, w);
    StepShape(reg, known, running, first);
    UpdatedUnique(reg, known, running, first);
    if t == first {
      StepCoversTarget(p, w, plan, o, t.backend);
      FirstIsListed(running, steps);
      ListedIsSpared(s, reg, known, next, rest, o, t.backend);
      SiblingSafeExactly(s, reg, known, next, rest, w1, o);
      assert HonestToAll(p, s, reg, rest);
    } else {
      TargetsReached(p, s, reg, known, next, rest, w1, t);
    }
  }

  lemma FirstIsListed(running: seq<RunningAssignment>, steps: seq<RestoreStep>)
    requires DistinctNamedTargets(steps) && steps != [] && steps[0].target.Output?
    ensures var o, b := steps[0].target.name, steps[0].backend;
            !IsTarget(steps[1..], o) && RunningAssignment(o, b) in Upsert(running, o, b)
  {
    UpsertLookup(running, steps[0].target.name, steps[0].backend, steps[0].target.name);
  }

  /**
   * Restore on any desktop honest to the session: every restored output ends on its step's backend when
   * the session permits the steps together, every other output keeps its renderer exactly when no step takes
   * it, and what was vacant stays vacant.
   */
  lemma RestoreOnTheDesktop(p: Physics, s: Session, reg: Registry, known: seq<string>,
        running: seq<RunningAssignment>, steps: seq<RestoreStep>, w: World)
    requires DistinctNamedTargets(steps) && UniqueOutputs(running) && Preflight(reg, known, running, steps).Some?
    requires HonestToAll(p, s, reg, steps)
    ensures var final := Run(p, w, Plans(reg, known, running, steps));
            && (StepsCoexist(s, reg, steps) ==> forall t :: t in steps ==> Get(final, t.target.name) == Some(t.backend))
            && forall o :: !IsTarget(steps, o) ==>
                 Get(final, o) == if o in w && !Taken(p, reg, running, steps, w[o]) then Some(w[o]) else None
  {
    var final := Run(p, w, Plans(reg, known, running, steps));
    if StepsCoexist(s, reg, steps) {
      forall t | t in steps ensures Get(final, t.target.name) == Some(t.backend) {
        TargetsReached(p, s, reg, known, running, steps, w, t);
      }
    }
    forall o | !IsTarget(steps, o)
      ensures Get(final, o) == if o in w && !Taken(p, reg, running, steps, w[o]) then Some(w[o]) else None
    {
      SiblingEnds(p, s, reg, known, running, steps, w, o);
    }
  }

  /** On every desktop of connected outputs the prepared steps do what their plans do. */
  lemma {:induction false} PreparedDoTheSame(p: Physics, reg: Registry, known: seq<string>,
        running: seq<RunningAssignment>, steps: seq<RestoreStep>, prepared: seq<PreparedStep>, w: World)
    requires Preflight(reg, known, running, steps).Some? && forall o :: o in w ==> o in known
    requires AllPrepared(prepared, steps, Preflight(reg, known, running, steps).value, known, running)
    ensures AllNamed(Flatten(ActionsOf(prepared)))
    ensures Run(p, w, EraseAll(Flatten(ActionsOf(prepared)))) == Run(p, w, Plans(reg, known, running, steps))
    decreases |steps|
  {
    if steps != [] {
      PlansInTurn(p, reg, known, running, steps, w);
      PreflightUnfolds(reg, known, running, steps);
      AllPreparedTail(prepared, steps, Preflight(reg, known, running, steps).value, known, running);
      PreparedMeansPlanned(p, reg, known, running, steps[0], prepared[0], w);
      var w1 := Run(p, w, EraseAll(prepared[0].actions));
      PreparedDoTheSame(p, reg, known, Updated(running, known, steps[0]), steps[1..], prepared[1..], w1);
      ActionsInTurn(p, w, w1, prepared);
    }
  }


  // ---------------------------------------------------------------- what the prepared actions can reach

  /** In scope of the action only if it is a stop that freeing the target of the step requires. */
  ghost predicate StepReaches(a: ExecAction, reg: Registry, running: seq<RunningAssignment>, step: RestoreStep,
        o: string) {
    a.scope.Named? && (o in a.scope.outputs ==> a.ExecStop? && StoppedBy(reg, running, step, a.backend))
  }

  ghost predicate PlannedReach(a: PlannedAction, reg: Registry, running: seq<RunningAssignment>, step: RestoreStep,
        o: string) {
    if a.StopBackend? then StoppedBy(reg, running, step, a.backend) else o !in a.outputs
  }

  lemma StepPlanReaches(reg: Registry, known: seq<string>, running: seq<RunningAssignment>, step: RestoreStep,
        o: string)
    requires step.target.Output? && StepPlan(reg, known, running, step).Some? && step.target != Output(o)
    ensures forall a :: a in StepPlan(reg, known, running, step).value ==> PlannedReach(a, reg, running, step, o)
  {
    StepShape(reg, known, running, step);
    var cap, target := reg.capabilityFor(step.backend).value, step.target.name;
    var stops := TargetStops(reg, cap, running, target).value;
    SingleGroup(cap, target);
    if stops != [] {
      assert stops == [stops[0]] && Lookup(running, target) == Some(stops[0].backend);
    }
  }

  lemma {:induction false} TranslatedReaches(actions: seq<PlannedAction>, path: string, known: seq<string>,
        useInstant: bool, reg: Registry, running: seq<RunningAssignment>, step: RestoreStep, o: string)
    requires Translate(actions, path, known, useInstant).Success?
    requires forall a :: a in actions ==> PlannedReach(a, reg, running, step, o)
    ensures forall a :: a in Translate(actions, path, known, useInstant).value ==> StepReaches(a, reg, running, step, o)
  {
    if actions != [] {
      assert PlannedReach(actions[0], reg, running, step, o);
      assert StepReaches(ToExecAction(actions[0], path, known, useInstant).value, reg, running, step, o);
      TranslatedReaches(actions[1..], path, known, useInstant, reg, running, step, o);
    }
  }

  ghost predicate Reaches(a: ExecAction, reg: Registry, running: seq<RunningAssignment>, steps: seq<RestoreStep>,
        o: string) {
    a.scope.Named? && (o in a.scope.outputs ==> a.ExecStop? && Stopped(reg, running, steps, a.backend))
  }

  ghost predicate AllReach(actions: seq<ExecAction>, reg: Registry, running: seq<RunningAssignment>,
        steps: seq<RestoreStep>, o: string) {
    forall a :: a in actions ==> Reaches(a, reg, running, steps, o)
  }

  lemma ActionsUnfold(prepared: seq<PreparedStep>)
    requires prepared != []
    ensures Flatten(ActionsOf(prepared)) == prepared[0].actions + Flatten(ActionsOf(prepared[1..]))
  {
    assert ActionsOf(prepared)[1..] == ActionsOf(prepared[1..]);
  }

  lemma PreparedStepReaches(reg: Registry, known: seq<string>, running: seq<RunningAssignment>, step: RestoreStep,
        prepared: PreparedStep, plan: seq<PlannedAction>, o: string)
    requires step.target.Output? && StepPlan(reg, known, running, step) == Some(plan) && step.target != Output(o)
    requires PreparedFrom(prepared, step, plan, known, running)
    ensures forall a :: a in prepared.actions ==> StepReaches(a, reg, running, step, o)
  {
    StepPlanReaches(reg, known, running, step, o);
    TranslatedReaches(plan, step.path, known, Instantly(plan, running, step.backend), reg, running, step, o);
  }

  lemma ReachesInTurn(reg: Registry, known: seq<string>, running: seq<RunningAssignment>, steps: seq<RestoreStep>,
        x: seq<ExecAction>, y: seq<ExecAction>, o: string)
    requires DistinctNamedTargets(steps) && steps != []
    requires forall a :: a in x ==> StepReaches(a, reg, running, steps[0], o)
    requires AllReach(y, reg, Updated(running, known, steps[0]), steps[1..], o)
    ensures AllReach(x + y, reg, running, steps, o)
  {
    forall a | a in x + y ensures Reaches(a, reg, running, steps, o) {
      StoppedLater(reg, known, running, steps, a.backend);
      assert a in x || a in y;
    }
  }

  lemma TargetsInTurn(steps: seq<RestoreStep>, o: string)
    requires DistinctNamedTargets(steps) && steps != [] && !IsTarget(steps, o)
    ensures steps[0].target.Output? && steps[0].target != Output(o)
    ensures DistinctNamedTargets(steps[1..]) && !IsTarget(steps[1..], o)
  {
    assert steps[0] in steps && forall t :: t in steps[1..] ==> t in steps;
  }

  /** Beside the targets the prepared actions only stop what has to be stopped everywhere. */
  lemma {:induction false} SequenceReaches(reg: Registry, known: seq<string>, running: seq<RunningAssignment>,
        steps: seq<RestoreStep>, prepared: seq<PreparedStep>, o: string)
    requires DistinctNamedTargets(steps) && Preflight(reg, known, running, steps).Some? && !IsTarget(steps, o)
    requires AllPrepared(prepared, steps, Preflight(reg, known, running, steps).value, known, running)
    ensures AllReach(Flatten(ActionsOf(prepared)), reg, running, steps, o)
    decreases |steps|
  {
    if steps != [] {
      TargetsInTurn(steps, o);
      PreflightUnfolds(reg, known, running, steps);
      AllPreparedTail(prepared, steps, Preflight(reg, known, running, steps).value, known, running);
      var x, y := prepared[0].actions, Flatten(ActionsOf(prepared[1..]));
      assert AllReach(y, reg, Updated(running, known, steps[0]), steps[1..], o) by {
        SequenceReaches(reg, known, Updated(running, known, steps[0]), steps[1..], prepared[1..], o);
      }
      assert forall a :: a in x ==> StepReaches(a, reg, running, steps[0], o) by {
        var plan := StepPlan(reg, known, running, steps[0]).value;
        PreparedStepReaches(reg, known, running, steps[0], prepared[0], plan, o);
      }
      ReachesInTurn(reg, known, running, steps, x, y, o);
      ActionsUnfold(prepared);
    }
  }

  lemma {:induction false} StepsRegistered(reg: Registry, known: seq<string>, running: seq<RunningAssignment>,
        steps: seq<RestoreStep>)
    requires DistinctNamedTargets(steps) && Preflight(reg, known, running, steps).Some?
    ensures forall s :: s in steps ==>
              reg.capabilityFor(s.backend).Some? && reg.capabilityFor(s.backend).value.backend == s.backend
    decreases |steps|
  {
    if steps != [] {
      assert steps[0] in steps && forall t :: t in steps[1..] ==> t in steps;
      PreflightUnfolds(reg, known, running, steps);
      StepShape(reg, known, running, steps[0]);
      StepsRegistered(reg, known, Updated(running, known, steps[0]), steps[1..]);
    }
  }

  /**
   * A named plan that could take a sibling's renderer is refused as soon as that renderer is seen: by the
   * planner, or because the session does not permit the pair.
   */
  lemma SeeingProtects(s: Session, reg: Registry, cap: Capability, running: seq<RunningAssignment>, o: string,
        other: string, b: Backend)
    requires Registered(reg, cap) && NamedPlan(reg, cap, running, o).Some? && other != o && Lookup(running, other).None?
    requires exists a :: a in NamedPlan(reg, cap, running, o).value && Removes(Worst(s, reg), a, b, other)
    ensures || NamedPlan(reg, cap, running + [RunningAssignment(other, b)], o).None?
            || (b != cap.backend && !reg.Coexist(s, cap.backend, b))
  {
    var listed := RunningAssignment(other, b);
    var more := running + [listed];
    WorstIsHonest(s, reg, cap);
    NamedPlanRemoves(Worst(s, reg), s, reg, cap, running, o, b, other);
    if NamedPlan(reg, cap, more, o).Some? {
      assert listed in more;
      ListedIsNotStopped(reg, cap, more, o, other, b);
      LookupSnoc(running, listed, o);
    }
  }

  // ---------------------------------------------------------------- with the shipped tables

  /**
   * With the shipped tables a sibling of a supported backend is safe exactly when the session permits each
   * step's pair with it.
   */
  lemma ShippedSiblingSafeExactly(s: Session, known: seq<string>, running: seq<RunningAssignment>,
        steps: seq<RestoreStep>, w: World, o: string)
    requires DistinctNamedTargets(steps) && Preflight(SHIPPED, known, running, steps).Some?
    requires !IsTarget(steps, o) && o in w && Supported(w[o])
    ensures (forall p :: HonestToAll(p, s, SHIPPED, steps) ==>
               Get(Run(p, w, Plans(SHIPPED, known, running, steps)), o) == Some(w[o]))
            <==> forall step :: step in steps ==> SHIPPED.Coexist(s, step.backend, w[o])
  {
    SiblingSafeExactly(s, SHIPPED, known, running, steps, w, o);
    StepsRegistered(SHIPPED, known, running, steps);
    forall step | step in steps
      ensures Spares(s, SHIPPED, running, step, w[o]) <==> SHIPPED.Coexist(s, step.backend, w[o])
    {
      assert step.target.Output? && ShippedCapability(step.backend).Some?;
      ShippedPairs(s, step.backend, w[o]);
    }
  }

  /** In the best session no accepted restore loses a sibling of a supported backend, seen or not. */
  lemma ShippedTablesAreSafe(p: Physics, known: seq<string>, running: seq<RunningAssignment>, steps: seq<RestoreStep>,
        w: World, o: string)
    requires DistinctNamedTargets(steps) && Preflight(SHIPPED, known, running, steps).Some?
    requires !IsTarget(steps, o) && o in w && Supported(w[o])
    requires forall step :: step in steps ==> HonestFor(p, SHIPPED, step.backend)
    ensures Get(Run(p, w, Plans(SHIPPED, known, running, steps)), o) == Some(w[o])
  {
    StepsRegistered(SHIPPED, known, running, steps);
    forall step | step in steps
      ensures HonestToStep(p, BEST, SHIPPED, step.backend) && SHIPPED.Coexist(BEST, step.backend, w[o])
    {
      TablesAreTheBestSession(p, SHIPPED, ShippedCapability(step.backend).value);
      ShippedPairs(BEST, step.backend, w[o]);
    }
    ShippedSiblingSafeExactly(BEST, known, running, steps, w, o);
  }

  /** A session without niri and without awww. */
  const ELSEWHERE := Session(false, false, false, false, false)

  const MPVPAPER_ON_A := [RestoreStep(OutputRow("A"), Output("A"), "", Mpvpaper)]

  lemma MpvpaperOnAPlan(running: seq<RunningAssignment>)
    requires forall a :: a in running ==> a == RunningAssignment("B", Swaybg)
    ensures NamedPlan(SHIPPED, ShippedCapability(Mpvpaper).value, running, "A") == Some([Apply(Mpvpaper, ["A"])])
  {
    assert "A"[0] != "B"[0];
    SingleGroup(ShippedCapability(Mpvpaper).value, "A");
    assert [] + ApplyActions(ShippedCapability(Mpvpaper).value, ["A"]) == [Apply(Mpvpaper, ["A"])];
  }

  lemma MpvpaperOnAIsWellFormed(running: seq<RunningAssignment>, known: seq<string>)
    requires known == ["A", "B"] && (running == [] || running == [RunningAssignment("B", Swaybg)])
    ensures WellFormed(StepRequest(known, running, MPVPAPER_ON_A[0]))
  {
    assert "A"[0] != "B"[0] && !IsWhitespace("A"[0]) && !IsWhitespace("B"[0]);
    assert "A" in known && "B" in known;
  }

  /**
   * Outside niri, "B" shows swaybg but linux-wallpaperengine claims it too, so its owner is uncertain. It
   * is not listed, mpvpaper is accepted on "A", and no session fact vouches for "B" once it starts. Seen
   * as occupied, the planner still accepts, but the session does not permit the pair.
   */
  lemma UncertainSiblingMayBeLost()
    ensures var known, w := ["A", "B"], map["B" := Swaybg];
            && Preflight(SHIPPED, known, [], MPVPAPER_ON_A).Some?
            && HonestToAll(Worst(ELSEWHERE, SHIPPED), ELSEWHERE, SHIPPED, MPVPAPER_ON_A)
            && "B" !in Run(Worst(ELSEWHERE, SHIPPED), w, Plans(SHIPPED, known, [], MPVPAPER_ON_A))
            && Preflight(SHIPPED, known, [RunningAssignment("B", Swaybg)], MPVPAPER_ON_A).Some?
            && !SHIPPED.Coexist(ELSEWHERE, Mpvpaper, Swaybg)
  {
    var known, seen, w := ["A", "B"], [RunningAssignment("B", Swaybg)], map["B" := Swaybg];
    var worst := Worst(ELSEWHERE, SHIPPED);
    assert [MPVPAPER_ON_A[0]] + [] == MPVPAPER_ON_A && "A"[0] != "B"[0];
    MpvpaperOnAPlan([]);
    MpvpaperOnAPlan(seen);
    MpvpaperOnAIsWellFormed([], known);
    MpvpaperOnAIsWellFormed(seen, known);
    PreflightFolds(SHIPPED, known, [], MPVPAPER_ON_A[0], [], []);
    PreflightFolds(SHIPPED, known, seen, MPVPAPER_ON_A[0], [], []);
    WorstIsHonest(ELSEWHERE, SHIPPED, ShippedCapability(Mpvpaper).value);
    assert HonestToStep(worst, ELSEWHERE, SHIPPED, Mpvpaper);
    SiblingEnds(worst, ELSEWHERE, SHIPPED, known, [], MPVPAPER_ON_A, w, "B");
    assert MPVPAPER_ON_A[0] in MPVPAPER_ON_A && Takes(worst, SHIPPED, [], MPVPAPER_ON_A[0], Swaybg);
  }
}
