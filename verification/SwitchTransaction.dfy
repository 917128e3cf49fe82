/** How every display switch runs: checks first, then the actions, then the way back if anything failed. */
module SwitchTransaction {
  import opened Prelude
  import Capabilities
  import opened Observation
  import opened ApplyPipeline
  import SessionIntents

  type Backend = Capabilities.Backend

  type Registry = Capabilities.Registry

  type Session = Capabilities.Session

  datatype Recipe = Recipe(backend: Backend, media: string, options: string)

  datatype TransitionStep = TransitionStep(scope: ExecutionScope, backend: Backend, recipe: Option<Recipe>,
        actions: seq<ExecAction>)

  /** What every output shows; an absent output is vacant. */
  type Desktop = map<string, Recipe>

  predicate InScope(scope: ExecutionScope, o: string) {
    scope.AllScope? || o in scope.outputs
  }

  // ---------------------------------------------------------------- the environment

  /** Facts outside the renderers that are looked at before anything is done. */
  datatype Fact =
    | Connected
    | SessionRead
    | RequestPrepared
    | RecoveryPrepared(output: string)
    | StillCurrent
    | Journaled
    | MediaPresent
    | InTime

  /** How one attempted action ends. */
  datatype Attempt = Done | NotStarted | FailedClean | FailedUncertain

  /**
   * The renderers. An action may fail at any point. A start may do anything to the outputs of its
   * scope, a stop only ends renderers of its own backend there; nothing outside the scope is reached.
   * Verification and observation do not change the desktop, and what they confirm is so; they may
   * always fail to confirm.
   */
  class Runtime {
    const session: Session

    var desktop: Desktop

    /** The actions started so far. */
    ghost var log: seq<ExecAction>

    /** The facts confirmed so far, each with how many actions had been started by then. */
    ghost var confirmed: seq<(Fact, nat)>

    /** How often the environment has failed: an action, a verification, an observation or a check. */
    ghost var faults: nat

    /** How many of the failed actions left it open what they had done. */
    ghost var doubts: nat

    method Perform(action: ExecAction) returns (outcome: Attempt)
      modifies this
      ensures forall o :: SparedBy(action, old(desktop), o) ==> Get(desktop, o) == Get(old(desktop), o)
      ensures outcome.NotStarted? ==> desktop == old(desktop)
      ensures log == old(log) + if outcome.NotStarted? then [] else [action]
      ensures faults == old(faults) + if outcome.Done? then 0 else 1
      ensures doubts == old(doubts) + if outcome.FailedUncertain? then 1 else 0
      ensures confirmed == old(confirmed)
    {
      outcome := *;
      if !outcome.Done? {
        faults := faults + 1;
      }
      if outcome.FailedUncertain? {
        doubts := doubts + 1;
      }
      if !outcome.NotStarted? {
        log := log + [action];
        var changed: Desktop := *;
        desktop := map o | o in desktop.Keys + changed.Keys
            && (if SparedBy(action, desktop, o) then o in desktop else o in changed)
                     :: if SparedBy(action, desktop, o) then desktop[o] else changed[o];
      }
    }

    method VerifyRecipe(output: string, recipe: Recipe) returns (ok: bool)
      modifies this`faults
      ensures ok ==> Get(desktop, output) == Some(recipe)
      ensures faults == old(faults) + if ok then 0 else 1
    {
      var confirmed: bool := *;
      ok := confirmed && Get(desktop, output) == Some(recipe);
      if !ok {
        faults := faults + 1;
      }
    }

    /** One entry per given output, in order; an uncertain one is a failed observation. */
    method ObserveOwnership(known: seq<string>) returns (snapshot: seq<(string, Ownership)>)
      modifies this`faults
      ensures Observed(snapshot, known, desktop)
      ensures faults >= old(faults) && (faults == old(faults) ==> Sure(snapshot))
    {
      snapshot := [];
      for i := 0 to |known|
        invariant |snapshot| == i && forall j :: 0 <= j < i ==> snapshot[j].0 == known[j]
        invariant Truthful(snapshot, Backends(desktop))
        invariant faults >= old(faults)
        invariant faults == old(faults) ==> forall j :: 0 <= j < i ==> !snapshot[j].1.Uncertain?
        modifies this`faults
      {
        var sure: bool := *;
        if !sure {
          faults := faults + 1;
        }
        var seen :=
          if !sure then Uncertain else if known[i] in desktop then Occupied(desktop[known[i]].backend) else Vacant;
        snapshot := snapshot + [(known[i], seen)];
      }
    }

    /** Whether the session permits two backends side by side; its facts may not be readable. */
    method PreflightPair(reg: Registry, left: Backend, right: Backend) returns (ok: bool)
      modifies this`faults, this`confirmed
      ensures old(confirmed) <= confirmed
      ensures ok ==> reg.Coexist(session, left, right) && faults == old(faults)
      ensures faults >= old(faults) && (!ok ==> faults > old(faults) || !reg.Coexist(session, left, right))
    {
      match reg.pairSupport(left, right) {
        case Independent =>
          return true;
        case UnverifiedPair =>
          return false;
        case _ =>
          var readable := Check(SessionRead);
          return readable && reg.Coexist(session, left, right);
      }
    }

    /** Facts outside the renderers: topology, media, revisions, renderer identities, time. */
    method Check(fact: Fact) returns (ok: bool)
      modifies this`faults, this`confirmed
      ensures faults == old(faults) + if ok then 0 else 1
      ensures confirmed == old(confirmed) + if ok then [(fact, |log|)] else []
    {
      ok := *;
      if ok {
        confirmed := confirmed + [(fact, |log|)];
      } else {
        faults := faults + 1;
      }
    }
  }

  /** A way back was prepared for every output that shows something. */
  ghost predicate WaysPrepared(since: seq<(Fact, nat)>, outputs: seq<string>, desktop: Desktop, n: nat) {
    forall i :: 0 <= i < |outputs| && outputs[i] in desktop ==> (RecoveryPrepared(outputs[i]), n) in since
  }

  /** Everything that has to be looked at before the first action was confirmed while `n` actions had been started. */
  ghost predicate Cleared(since: seq<(Fact, nat)>, outputs: seq<string>, desktop: Desktop, n: nat) {
    && (Connected, n) in since && (RequestPrepared, n) in since && (StillCurrent, n) in since && (Journaled, n) in since
    && WaysPrepared(since, outputs, desktop, n)
  }

  /** What has been added meanwhile has been added since. */
  lemma MoreSince<T>(a: seq<T>, b: seq<T>, c: seq<T>)
    requires a <= b <= c
    ensures a <= c && forall x :: x in b[|a|..] || x in c[|b|..] ==> x in c[|a|..]
  {
    assert c[|a|..] == b[|a|..] + c[|b|..];
  }

  lemma WaysPreparedNext(a: seq<(Fact, nat)>, b: seq<(Fact, nat)>, c: seq<(Fact, nat)>, outputs: seq<string>, i: nat,
        desktop: Desktop, n: nat)
    requires a <= b <= c && i < |outputs| && WaysPrepared(b[|a|..], outputs[..i], desktop, n)
    requires outputs[i] in desktop ==> (RecoveryPrepared(outputs[i]), n) in c[|b|..]
    ensures a <= c && WaysPrepared(c[|a|..], outputs[..i + 1], desktop, n)
  {
    MoreSince(a, b, c);
  }

  lemma AddedSince<T>(a: seq<T>, b: seq<T>, x: T, c: seq<T>)
    requires a <= b && b + [x] <= c
    ensures a <= c && x in c[|a|..]
  {
    assert c[|a|..][|b| - |a|] == c[|b|] == (b + [x])[|b|] == x;
  }

  /** The action cannot change the output: it is out of scope, or shows nothing that the stop ends. */
  predicate SparedBy(action: ExecAction, desktop: Desktop, o: string) {
    || !InScope(action.scope, o)
    || (action.ExecStop? && (o in desktop ==> desktop[o].backend != action.backend))
  }

  /** No action can change the output, as long as it shows what it shows now. */
  ghost predicate Spared(actions: seq<ExecAction>, desktop: Desktop, o: string) {
    forall a :: a in actions ==> SparedBy(a, desktop, o)
  }

  /** Which backend draws on each output. */
  function Backends(desktop: Desktop): map<string, Backend> {
    map o | o in desktop :: desktop[o].backend
  }

  /** Durable preferences; a commit takes effect as a whole or not at all. */
  class Preferences {
    var commits: nat

    /** How often a commit was refused. */
    ghost var refusals: nat

    method Commit() returns (ok: bool)
      modifies this
      ensures commits == old(commits) + if ok then 1 else 0
      ensures refusals == old(refusals) + if ok then 0 else 1
    {
      ok := *;
      if ok {
        commits := commits + 1;
      } else {
        refusals := refusals + 1;
      }
    }
  }

  // ---------------------------------------------------------------- executing prepared actions

  /** Every started action, and how the run ended. */
  datatype Progress = Progress(attempted: seq<(Backend, ExecutionScope)>, ok: bool, uncertain: bool)

  ghost predicate Touched(attempted: seq<(Backend, ExecutionScope)>, o: string) {
    exists a :: a in attempted && InScope(a.1, o)
  }

  lemma TouchedMore(attempted: seq<(Backend, ExecutionScope)>, last: (Backend, ExecutionScope))
    ensures forall o :: Touched(attempted + [last], o) <==> Touched(attempted, o) || InScope(last.1, o)
  {
    assert forall a :: a in attempted + [last] <==> a in attempted || a == last;
  }

  lemma StillSpared(actions: seq<ExecAction>, i: nat, original: Desktop, now: Desktop)
    requires i < |actions|
    requires forall o :: Spared(actions, original, o) ==> Get(now, o) == Get(original, o)
    ensures forall o :: Spared(actions, original, o) ==> SparedBy(actions[i], now, o)
  {
    forall o | Spared(actions, original, o) ensures SparedBy(actions[i], now, o) {
      assert actions[i] in actions && Get(now, o) == Get(original, o);
      assert SparedBy(actions[i], original, o);
    }
  }

  /** Stops at the first failing action; everything outside the attempted scopes is as it was. */
  method ExecuteActions(runtime: Runtime, actions: seq<ExecAction>) returns (progress: Progress)
    modifies runtime
    ensures forall o :: !Touched(progress.attempted, o) ==> Get(runtime.desktop, o) == Get(old(runtime.desktop), o)
    ensures forall o :: Spared(actions, old(runtime.desktop), o) ==>
              Get(runtime.desktop, o) == Get(old(runtime.desktop), o)
    ensures |progress.attempted| <= |actions|
    ensures forall i :: 0 <= i < |progress.attempted| ==>
              progress.attempted[i] == (actions[i].backend, actions[i].scope)
    ensures progress.ok ==> |progress.attempted| == |actions| && !progress.uncertain
    ensures progress.uncertain ==> progress.attempted != []
    ensures progress.uncertain <==> runtime.doubts > old(runtime.doubts)
    ensures old(runtime.confirmed) <= runtime.confirmed
    ensures progress.attempted != [] ==>
              (MediaPresent, |old(runtime.log)|) in runtime.confirmed[|old(runtime.confirmed)|..]
    ensures runtime.log == old(runtime.log) + actions[..|progress.attempted|]
    ensures progress.ok <==> runtime.faults == old(runtime.faults)
    ensures old(runtime.faults) <= runtime.faults <= old(runtime.faults) + 1
  {
    var attempted: seq<(Backend, ExecutionScope)> := [];
    var media := runtime.Check(MediaPresent);
    if !media {
      return Progress([], false, false);
    }
    for i := 0 to |actions|
      invariant |attempted| == i && forall j :: 0 <= j < i ==> attempted[j] == (actions[j].backend, actions[j].scope)
      invariant forall o :: !Touched(attempted, o) ==> Get(runtime.desktop, o) == Get(old(runtime.desktop), o)
      invariant forall o :: Spared(actions, old(runtime.desktop), o) ==>
                  Get(runtime.desktop, o) == Get(old(runtime.desktop), o)
      invariant runtime.log == old(runtime.log) + actions[..i] && runtime.faults == old(runtime.faults)
      invariant runtime.doubts == old(runtime.doubts)
      invariant runtime.confirmed == old(runtime.confirmed) + [(MediaPresent, |old(runtime.log)|)]
    {
      assert actions[..i + 1] == actions[..i] + [actions[i]];
      StillSpared(actions, i, old(runtime.desktop), runtime.desktop);
      var outcome := runtime.Perform(actions[i]);
      if outcome.NotStarted? {
        return Progress(attempted, false, false);
      }
      TouchedMore(attempted, (actions[i].backend, actions[i].scope));
      attempted := attempted + [(actions[i].backend, actions[i].scope)];
      if !outcome.Done? {
        return Progress(attempted, false, outcome.FailedUncertain?);
      }
    }
    return Progress(attempted, true, false);
  }

  function AllActions(steps: seq<TransitionStep>): (r: seq<ExecAction>)
    ensures forall a :: a in r <==> exists s :: s in steps && a in s.actions
  {
    if steps == [] then []
    else
      assert forall s :: s in steps <==> s == steps[0] || s in steps[1..];
      steps[0].actions + AllActions(steps[1..])
  }

  // ---------------------------------------------------------------- preflight

  datatype Batch = Batch(outputs: seq<string>, known: seq<string>, steps: seq<TransitionStep>)

  datatype PreflightError =
    | InvalidOutputs
    | EnvironmentChanged
    | RemovedBackend
    | PairRefused
    | NoMatchingRecipe(output: string)
    | Unrecoverable(output: string)
    | NotPrepared(output: string)

  /** An output and what it showed, `None` when vacant. */
  datatype Before = Before(output: string, previous: Option<Recipe>)

  datatype Recovery = Recovery(output: string, steps: seq<TransitionStep>)

  /** Puts one recipe back on one output. */
  function ScopedRecipe(output: string, recipe: Recipe): (r: TransitionStep)
    ensures r.recipe == Some(recipe) && r.backend == recipe.backend
    ensures forall a :: a in r.actions ==> a.scope == r.scope == Named([output])
  {
    TransitionStep(Named([output]), recipe.backend, Some(recipe),
          [ExecApply(recipe.backend, recipe.media, Named([output]), true)])
  }

  function Recoveries(before: seq<Before>): seq<Recovery> {
    if before == [] then []
    else
      var earlier, last := Recoveries(before[..|before| - 1]), before[|before| - 1];
      if last.previous.Some? then
        earlier + [Recovery(last.output, [ScopedRecipe(last.output, last.previous.value)])]
      else
        earlier
  }

  /** `before` lists the outputs in order with exactly what each one shows. */
  ghost predicate Records(before: seq<Before>, outputs: seq<string>, desktop: Desktop) {
    && |before| == |outputs|
    && forall i :: 0 <= i < |before| ==>
         before[i].output == outputs[i] && before[i].previous == Get(desktop, outputs[i])
  }

  datatype Prepared = Prepared(before: seq<Before>, recovery: seq<Recovery>)

  predicate ValidOutputs(outputs: seq<string>): (r: bool)
    ensures !r <==>
            || outputs == [] || |outputs| > 32 || (exists o :: o in outputs && IsBlank(o))
            || exists i, j :: 0 <= i < j < |outputs| && outputs[i] == outputs[j]
  {
    Distinct(outputs) && (forall o :: o in outputs ==> !IsBlank(o)) && 1 <= |outputs| <= 32
  }

  /** Whatever shows on the outputs is their saved recipe. */
  ghost predicate Recoverable(desktop: Desktop, outputs: seq<string>, saved: map<string, Recipe>) {
    forall o :: o in outputs && o in desktop ==> Get(saved, o) == Some(desktop[o])
  }

  /** Reasons to refuse a batch that lie in the request and the desktop, not in a failing environment. */
  ghost predicate Unfit(desktop: Desktop, batch: Batch, saved: map<string, Recipe>) {
    || !ValidOutputs(batch.outputs)
    || (exists s :: s in batch.steps && s.backend.Feh?)
    || exists o :: o in batch.outputs && (o !in batch.known || Unmatched(desktop, saved, o))
  }

  /** The output shows a renderer its saved recipe is not for. */
  predicate Unmatched(desktop: Desktop, saved: map<string, Recipe>, o: string) {
    o in desktop && (o in saved ==> saved[o].backend != desktop[o].backend)
  }

  // ---------------------------------------------------------------- pairs of renderers in the session

  predicate InNamed(scope: ExecutionScope, o: string) {
    scope.Named? && o in scope.outputs
  }

  /** Every step may share the session with each renderer seen beside its scope, and with every step. */
  ghost predicate PairsHold(reg: Registry, s: Session, steps: seq<TransitionStep>, seen: seq<(string, Ownership)>) {
    && (forall t, e :: t in steps && e in seen ==> PairHolds(reg, s, t, e))
    && forall t, u :: t in steps && u in steps ==> reg.Coexist(s, t.backend, u.backend)
  }

  predicate PairHolds(reg: Registry, s: Session, t: TransitionStep, e: (string, Ownership)) {
    !InNamed(t.scope, e.0) && e.1.Occupied? ==> reg.Coexist(s, t.backend, e.1.backend)
  }

  /** The same with what really shows. */
  ghost predicate PairsFit(reg: Registry, s: Session, batch: Batch, desktop: Desktop) {
    && (forall t, o :: t in batch.steps && o in batch.known && o in desktop && !InNamed(t.scope, o) ==>
          reg.Coexist(s, t.backend, desktop[o].backend))
    && forall t, u :: t in batch.steps && u in batch.steps ==> reg.Coexist(s, t.backend, u.backend)
  }

  lemma FittingPairsHold(reg: Registry, s: Session, batch: Batch, desktop: Desktop, seen: seq<(string, Ownership)>)
    requires Observed(seen, batch.known, desktop) && PairsFit(reg, s, batch, desktop)
    ensures PairsHold(reg, s, batch.steps, seen)
  {
    forall t, e | t in batch.steps && e in seen ensures PairHolds(reg, s, t, e) {
      var i :| 0 <= i < |seen| && seen[i] == e;
      assert seen[i].0 == batch.known[i];
    }
  }

  /** Checks every step against the renderers seen beside it, then against every step. */
  method PreflightPairs(runtime: Runtime, reg: Registry, steps: seq<TransitionStep>, seen: seq<(string, Ownership)>)
      returns (ok: bool)
    modifies runtime`faults, runtime`confirmed
    ensures old(runtime.confirmed) <= runtime.confirmed
    ensures ok ==> PairsHold(reg, runtime.session, steps, seen)
    ensures runtime.faults >= old(runtime.faults)
    ensures !ok ==> runtime.faults > old(runtime.faults) || !PairsHold(reg, runtime.session, steps, seen)
  {
    for i := 0 to |steps|
      invariant forall j, e :: 0 <= j < i && e in seen ==> PairHolds(reg, runtime.session, steps[j], e)
      invariant forall j, u :: 0 <= j < i && u in steps ==> reg.Coexist(runtime.session, steps[j].backend, u.backend)
      invariant runtime.faults >= old(runtime.faults) && old(runtime.confirmed) <= runtime.confirmed
      modifies runtime`faults, runtime`confirmed
    {
      assert steps[i] in steps;
      for j := 0 to |seen|
        invariant forall k :: 0 <= k < j ==> PairHolds(reg, runtime.session, steps[i], seen[k])
        invariant runtime.faults >= old(runtime.faults) && old(runtime.confirmed) <= runtime.confirmed
        modifies runtime`faults, runtime`confirmed
      {
        assert seen[j] in seen;
        if !InNamed(steps[i].scope, seen[j].0) && seen[j].1.Occupied? {
          var beside := runtime.PreflightPair(reg, steps[i].backend, seen[j].1.backend);
          if !beside {
            assert PairHolds(reg, runtime.session, steps[i], seen[j])
                <==> reg.Coexist(runtime.session, steps[i].backend, seen[j].1.backend);
            return false;
          }
        }
      }
      for j := 0 to |steps|
        invariant forall k :: 0 <= k < j ==> reg.Coexist(runtime.session, steps[i].backend, steps[k].backend)
        invariant runtime.faults >= old(runtime.faults) && old(runtime.confirmed) <= runtime.confirmed
        modifies runtime`faults, runtime`confirmed
      {
        assert steps[j] in steps;
        var together := runtime.PreflightPair(reg, steps[i].backend, steps[j].backend);
        if !together {
          return false;
        }
      }
    }
    return true;
  }

  /** The output was seen, and its owner is known. */
  predicate Definite(seen: seq<(string, Ownership)>, o: string) {
    Owner(seen, o).Some? && !Owner(seen, o).value.Uncertain?
  }

  /**
   * Changes nothing. On success each output's renderer is recorded, shows its saved recipe, and has its
   * way back prepared, and the session permits every step beside every renderer that was seen; a refusal
   * is due to the batch, to a pair or to a failure of the environment.
   */
  method Preflight(runtime: Runtime, reg: Registry, batch: Batch, saved: map<string, Recipe>)
      returns (r: Result<Prepared, PreflightError>, ghost seen: seq<(string, Ownership)>)
    modifies runtime`faults, runtime`confirmed
    ensures old(runtime.confirmed) <= runtime.confirmed
    ensures r.Success? ==>
              Observed(seen, batch.known, runtime.desktop) && PairsHold(reg, runtime.session, batch.steps, seen)
    ensures r.Success? ==> forall o :: o in batch.outputs ==> Definite(seen, o)
    ensures r.Success? ==> Records(r.value.before, batch.outputs, runtime.desktop)
    ensures r.Success? ==> r.value.recovery == Recoveries(r.value.before)
    ensures r.Success? ==> !Unfit(runtime.desktop, batch, saved) && Recoverable(runtime.desktop, batch.outputs, saved)
    ensures r.Success? ==>
              var since := runtime.confirmed[|old(runtime.confirmed)|..];
              && (Connected, |runtime.log|) in since && (RequestPrepared, |runtime.log|) in since
              && (StillCurrent, |runtime.log|) in since
              && WaysPrepared(since, batch.outputs, runtime.desktop, |runtime.log|)
    ensures r == Failure(InvalidOutputs) <==> !ValidOutputs(batch.outputs)
    ensures r == Failure(RemovedBackend) ==> exists s :: s in batch.steps && s.backend.Feh?
    ensures r.Failure? && r.error.NoMatchingRecipe? ==>
              r.error.output in batch.outputs && Unmatched(runtime.desktop, saved, r.error.output)
    ensures r.Failure? && r.error.NotPrepared? ==> !Unmatched(runtime.desktop, saved, r.error.output)
    ensures runtime.faults >= old(runtime.faults)
    ensures r == Failure(PairRefused) ==>
              runtime.faults > old(runtime.faults) || !PairsFit(reg, runtime.session, batch, runtime.desktop)
    ensures r.Failure? ==>
              || runtime.faults > old(runtime.faults) || Unfit(runtime.desktop, batch, saved)
              || !PairsFit(reg, runtime.session, batch, runtime.desktop)
  {
    seen := [];
    if !ValidOutputs(batch.outputs) {
      return Failure(InvalidOutputs), seen;
    }
    ghost var first := runtime.confirmed;
    var looked := LookAround(runtime, reg, batch);
    if looked.Failure? {
      return Failure(looked.error), seen;
    }
    seen := looked.value;
    ghost var second := runtime.confirmed;
    r := PrepareOutputs(runtime, batch, saved, looked.value);
    if r.Failure? {
      return;
    }
    FitWhenReady(runtime.desktop, batch, saved);
    ghost var third := runtime.confirmed;
    var still := runtime.Check(StillCurrent);
    if !still {
      return Failure(EnvironmentChanged), seen;
    }
    MoreSince(first, second, third);
    MoreSince(first, third, runtime.confirmed);
    AddedSince(first, third, (StillCurrent, |runtime.log|), runtime.confirmed);
  }

  /** Everything about a switch that does not concern the outputs it changes. */
  method LookAround(runtime: Runtime, reg: Registry, batch: Batch)
      returns (r: Result<seq<(string, Ownership)>, PreflightError>)
    modifies runtime`faults, runtime`confirmed
    ensures old(runtime.confirmed) <= runtime.confirmed && runtime.faults >= old(runtime.faults)
    ensures r.Success? ==>
              && Observed(r.value, batch.known, runtime.desktop)
              && PairsHold(reg, runtime.session, batch.steps, r.value)
              && (forall s :: s in batch.steps ==> !s.backend.Feh?)
              && (runtime.faults == old(runtime.faults) ==> Sure(r.value))
    ensures r.Success? ==>
              var since := runtime.confirmed[|old(runtime.confirmed)|..];
              (Connected, |runtime.log|) in since && (RequestPrepared, |runtime.log|) in since
    ensures r.Failure? ==> r.error in {EnvironmentChanged, RemovedBackend, PairRefused}
    ensures r == Failure(RemovedBackend) ==> exists s :: s in batch.steps && s.backend.Feh?
    ensures r == Failure(PairRefused) ==>
              runtime.faults > old(runtime.faults) || !PairsFit(reg, runtime.session, batch, runtime.desktop)
    ensures r == Failure(EnvironmentChanged) ==> runtime.faults > old(runtime.faults)
  {
    ghost var first, n := runtime.confirmed, |runtime.log|;
    var topology := runtime.Check(Connected);
    if !topology {
      return Failure(EnvironmentChanged);
    }
    if exists s :: s in batch.steps && s.backend.Feh? {
      return Failure(RemovedBackend);
    }
    var ownership := runtime.ObserveOwnership(batch.known);
    var paired := PreflightPairs(runtime, reg, batch.steps, ownership);
    if !paired {
      if PairsFit(reg, runtime.session, batch, runtime.desktop) {
        FittingPairsHold(reg, runtime.session, batch, runtime.desktop, ownership);
      }
      return Failure(PairRefused);
    }
    ghost var second := runtime.confirmed;
    var identified := runtime.Check(RequestPrepared);
    if !identified {
      return Failure(EnvironmentChanged);
    }
    AddedSince(first, first, (Connected, n), runtime.confirmed);
    AddedSince(first, second, (RequestPrepared, n), runtime.confirmed);
    return Success(ownership);
  }

  /** The output is connected and shows nothing or its saved recipe. */
  ghost predicate Restorable(desktop: Desktop, batch: Batch, saved: map<string, Recipe>, o: string) {
    o in batch.known && (o in desktop ==> Get(saved, o) == Some(desktop[o]))
  }

  lemma FitWhenReady(desktop: Desktop, batch: Batch, saved: map<string, Recipe>)
    requires ValidOutputs(batch.outputs) && forall s :: s in batch.steps ==> !s.backend.Feh?
    requires forall i :: 0 <= i < |batch.outputs| ==> Restorable(desktop, batch, saved, batch.outputs[i])
    ensures !Unfit(desktop, batch, saved) && Recoverable(desktop, batch.outputs, saved)
  {
    forall o | o in batch.outputs ensures Restorable(desktop, batch, saved, o) {
    }
  }

  /** One entry for each connected output, in their order. */
  ghost predicate Observed(ownership: seq<(string, Ownership)>, known: seq<string>, desktop: Desktop) {
    && |ownership| == |known| && (forall i :: 0 <= i < |known| ==> ownership[i].0 == known[i])
    && Truthful(ownership, Backends(desktop))
  }

  ghost predicate Sure(ownership: seq<(string, Ownership)>) {
    forall i :: 0 <= i < |ownership| ==> !ownership[i].1.Uncertain?
  }

  /** The first outputs were seen with their owner, and show nothing or their saved recipe. */
  ghost predicate AllReady(desktop: Desktop, batch: Batch, saved: map<string, Recipe>,
        ownership: seq<(string, Ownership)>, n: nat)
    requires n <= |batch.outputs|
  {
    forall i :: 0 <= i < n ==>
      Restorable(desktop, batch, saved, batch.outputs[i]) && Definite(ownership, batch.outputs[i])
  }

  lemma RecoveriesNext(before: seq<Before>, entry: Before)
    ensures Recoveries(before + [entry])
         == if entry.previous.None? then Recoveries(before)
            else Recoveries(before) + [Recovery(entry.output, [ScopedRecipe(entry.output, entry.previous.value)])]
  {
    var all := before + [entry];
    assert all[..|all| - 1] == before && all[|all| - 1] == entry;
  }

  /** Records the outputs one by one; the first that cannot be recovered ends it. */
  method PrepareOutputs(runtime: Runtime, batch: Batch, saved: map<string, Recipe>, ownership: seq<(string, Ownership)>)
      returns (r: Result<Prepared, PreflightError>)
    requires Observed(ownership, batch.known, runtime.desktop)
    modifies runtime`faults, runtime`confirmed
    ensures old(runtime.confirmed) <= runtime.confirmed
    ensures r.Success? ==> Records(r.value.before, batch.outputs, runtime.desktop)
    ensures r.Success? ==> r.value.recovery == Recoveries(r.value.before)
    ensures r.Success? ==>
              WaysPrepared(runtime.confirmed[|old(runtime.confirmed)|..], batch.outputs, runtime.desktop, |runtime.log|)
    ensures r.Success? ==> AllReady(runtime.desktop, batch, saved, ownership, |batch.outputs|)
    ensures r.Failure? ==> !r.error.InvalidOutputs? && !r.error.RemovedBackend? && !r.error.PairRefused?
    ensures r.Failure? && r.error.NoMatchingRecipe? ==>
              r.error.output in batch.outputs && Unmatched(runtime.desktop, saved, r.error.output)
    ensures r.Failure? && r.error.NotPrepared? ==> !Unmatched(runtime.desktop, saved, r.error.output)
    ensures runtime.faults >= old(runtime.faults)
    ensures r.Failure? ==>
              runtime.faults > old(runtime.faults) || !Sure(ownership) || Unfit(runtime.desktop, batch, saved)
  {
    var before: seq<Before> := [];
    var recovery: seq<Recovery> := [];
    ghost var desktop, first, n := runtime.desktop, runtime.confirmed, |runtime.log|;
    for i := 0 to |batch.outputs|
      invariant PreparedTo(before, recovery, first, runtime.confirmed, batch, saved, ownership, i, desktop, n)
      invariant runtime.faults >= old(runtime.faults)
      modifies runtime`faults, runtime`confirmed
    {
      ghost var earlier := runtime.confirmed;
      var prepared := PrepareOutput(runtime, batch, saved, ownership, batch.outputs[i]);
      if prepared.Failure? {
        assert batch.outputs[i] in batch.outputs;
        return Failure(prepared.error);
      }
      var entry := Before(batch.outputs[i], prepared.value);
      PreparedNext(before, recovery, first, earlier, runtime.confirmed, batch, saved, ownership, i, desktop, n, entry);
      if entry.previous.Some? {
        recovery := recovery + [Recovery(entry.output, [ScopedRecipe(entry.output, entry.previous.value)])];
      }
      before := before + [entry];
    }
    assert batch.outputs[..|batch.outputs|] == batch.outputs;
    return Success(Prepared(before, recovery));
  }

  /** How far preparing has come after `i` outputs. */
  ghost predicate PreparedTo(before: seq<Before>, recovery: seq<Recovery>, first: seq<(Fact, nat)>,
        now: seq<(Fact, nat)>, batch: Batch, saved: map<string, Recipe>, ownership: seq<(string, Ownership)>, i: nat,
        desktop: Desktop, n: nat) {
    && i <= |batch.outputs| && first <= now && Records(before, batch.outputs[..i], desktop)
    && recovery == Recoveries(before) && AllReady(desktop, batch, saved, ownership, i)
    && WaysPrepared(now[|first|..], batch.outputs[..i], desktop, n)
  }

  lemma PreparedNext(before: seq<Before>, recovery: seq<Recovery>, first: seq<(Fact, nat)>, earlier: seq<(Fact, nat)>,
        now: seq<(Fact, nat)>, batch: Batch, saved: map<string, Recipe>, ownership: seq<(string, Ownership)>, i: nat,
        desktop: Desktop, n: nat, entry: Before)
    requires i < |batch.outputs| && earlier <= now
    requires PreparedTo(before, recovery, first, earlier, batch, saved, ownership, i, desktop, n)
    requires entry == Before(batch.outputs[i], Get(desktop, batch.outputs[i]))
    requires Restorable(desktop, batch, saved, batch.outputs[i]) && Definite(ownership, batch.outputs[i])
    requires entry.previous.Some? ==> (RecoveryPrepared(batch.outputs[i]), n) in now[|earlier|..]
    ensures PreparedTo(before + [entry],
              if entry.previous.None? then recovery
              else recovery + [Recovery(entry.output, [ScopedRecipe(entry.output, entry.previous.value)])],
              first, now, batch, saved, ownership, i + 1, desktop, n)
  {
    RecoveriesNext(before, entry);
    WaysPreparedNext(first, earlier, now, batch.outputs, i, desktop, n);
  }

  /** What one output shows, verified and with its way back prepared; `None` when it is vacant. */
  method PrepareOutput(runtime: Runtime, batch: Batch, saved: map<string, Recipe>, ownership: seq<(string, Ownership)>,
        output: string)
    returns (r: Result<Option<Recipe>, PreflightError>)
    requires Observed(ownership, batch.known, runtime.desktop)
    modifies runtime`faults, runtime`confirmed
    ensures old(runtime.confirmed) <= runtime.confirmed
    ensures r.Success? ==> r.value == Get(runtime.desktop, output) && Restorable(runtime.desktop, batch, saved, output)
    ensures r.Success? && r.value.Some? ==>
              (RecoveryPrepared(output), |runtime.log|) in runtime.confirmed[|old(runtime.confirmed)|..]
    ensures r.Success? ==> Definite(ownership, output)
    ensures r.Failure? ==> !r.error.InvalidOutputs? && !r.error.RemovedBackend? && !r.error.PairRefused?
    ensures r.Failure? && r.error.NoMatchingRecipe? ==>
              r.error.output == output && Unmatched(runtime.desktop, saved, output)
    ensures r.Failure? && r.error.NotPrepared? ==>
              r.error.output == output && !Unmatched(runtime.desktop, saved, output)
    ensures runtime.faults >= old(runtime.faults)
    ensures r.Failure? ==>
              || runtime.faults > old(runtime.faults) || !Sure(ownership)
              || output !in batch.known || Unmatched(runtime.desktop, saved, output)
  {
    var owner := Owner(ownership, output);
    if output in batch.known {
      OwnerFound(ownership, output);
    }
    if owner.Some? {
      var i :| 0 <= i < |ownership| && ownership[i] == (output, owner.value);
      assert ownership[i].0 == batch.known[i];
    }
    match owner {
      case Some(Vacant) =>
        return Success(None);
      case Some(Occupied(backend)) =>
        if output !in saved || saved[output].backend != backend {
          return Failure(NoMatchingRecipe(output));
        }
        var verified := runtime.VerifyRecipe(output, saved[output]);
        if !verified {
          return Failure(NotPrepared(output));
        }
        var prepared := runtime.Check(RecoveryPrepared(output));
        if !prepared {
          return Failure(NotPrepared(output));
        }
        return Success(Some(saved[output]));
      case _ =>
        return Failure(Unrecoverable(output));
    }
  }

  // ---------------------------------------------------------------- what a failed run changed

  /** The attempt reached the output; an unnamed scope stands for the whole batch. */
  predicate Hit(a: (Backend, ExecutionScope), o: string, outputs: seq<string>) {
    if a.1.Named? then o in a.1.outputs else o in outputs
  }

  function ScopeOutputs(scope: ExecutionScope, outputs: seq<string>): seq<string> {
    if scope.Named? then scope.outputs else outputs
  }

  /** The outputs of every attempted scope. */
  function ChangedBy(attempted: seq<(Backend, ExecutionScope)>, outputs: seq<string>): (r: set<string>)
    ensures forall o :: o in r <==> exists a :: a in attempted && Hit(a, o, outputs)
  {
    var r := set a, o | a in attempted && o in ScopeOutputs(a.1, outputs) :: o;
    assert forall a, o :: a in attempted ==> (Hit(a, o, outputs) <==> o in ScopeOutputs(a.1, outputs));
    r
  }

  /** The last attempt is in doubt, and it reached the output. */
  predicate InDoubt(progress: Progress, o: string, outputs: seq<string>) {
    && progress.uncertain && progress.attempted != []
    && Hit(progress.attempted[|progress.attempted| - 1], o, outputs)
  }

  /** Only the last attempted scope can be left in doubt. */
  function UncertainOutputs(progress: Progress, outputs: seq<string>): (r: set<string>)
    ensures forall o :: o in r <==> InDoubt(progress, o, outputs)
  {
    if progress.uncertain && progress.attempted != [] then
      var last := ScopeOutputs(progress.attempted[|progress.attempted| - 1].1, outputs);
      set o | o in last
    else {}
  }

  lemma UnchangedUntouched(attempted: seq<(Backend, ExecutionScope)>, outputs: seq<string>, o: string)
    requires o in outputs && o !in ChangedBy(attempted, outputs)
    ensures !Touched(attempted, o)
  {
    forall a | a in attempted ensures !InScope(a.1, o) {
      assert !Hit(a, o, outputs);
    }
  }

  // ---------------------------------------------------------------- reports

  datatype Outcome =
    | Applied | Stopped | AlreadySatisfied | Unchanged
    | RestoredPrevious | Partial | RecoveryFailed | OutcomeUnknown

  datatype CompensationError =
    | CleanupUnconfirmed
    | BudgetExhausted
    | StopFailed
    | PreparedRecoveryMissing
    | RecoveryNotExecuted
    | RecoveryNotVerified
    | AbsenceUnconfirmed

  datatype OutputResult = OutputResult(output: string, outcome: Outcome, error: Option<CompensationError>)

  datatype Report = Report(outcome: Outcome, outputs: seq<OutputResult>)

  predicate Failed(r: OutputResult) {
    r.outcome.RecoveryFailed? || r.outcome.OutcomeUnknown?
  }

  /** The aggregate as it is computed: from what was attempted and what was restored. */
  function Aggregate(changed: set<string>, uncertain: bool, results: seq<OutputResult>): Outcome {
    if changed == {} then Unchanged
    else if forall r :: r in results ==> !Failed(r) then RestoredPrevious
    else if exists r :: r in results && r.outcome.RestoredPrevious? then Partial
    else if uncertain then OutcomeUnknown
    else RecoveryFailed
  }

  /** The aggregate as a reader of the per-output outcomes alone would compute it. */
  function Summary(results: seq<OutputResult>): Outcome {
    if forall r :: r in results ==> r.outcome.Unchanged? then Unchanged
    else if forall r :: r in results ==> !Failed(r) then RestoredPrevious
    else if exists r :: r in results && r.outcome.RestoredPrevious? then Partial
    else if exists r :: r in results && r.outcome.OutcomeUnknown? then OutcomeUnknown
    else RecoveryFailed
  }

  // ---------------------------------------------------------------- compensation

  /**
   * What is promised about one output after compensation: unchanged exactly when no attempt reached it,
   * unknown exactly when the attempt in doubt did, and as before unless it failed.
   */
  ghost predicate Accurate(result: OutputResult, original: Desktop, now: Desktop, progress: Progress,
        outputs: seq<string>) {
    && result.outcome in {Unchanged, RestoredPrevious, RecoveryFailed, OutcomeUnknown}
    && (result.outcome.Unchanged? <==>
          forall i :: 0 <= i < |progress.attempted| ==> !Hit(progress.attempted[i], result.output, outputs))
    && (result.outcome.OutcomeUnknown? <==> InDoubt(progress, result.output, outputs))
    && (!Failed(result) ==> Get(now, result.output) == Get(original, result.output))
    && (Failed(result) <==> result.error.Some?)
    && result.error != Some(PreparedRecoveryMissing)
  }

  // ---------------------------------------------------------------- the way back of one output

  /** Every backend attempted on the output has been stopped there before position `n`. */
  ghost predicate StoppedBefore(since: seq<ExecAction>, o: string, attempted: seq<(Backend, ExecutionScope)>,
        outputs: seq<string>, n: int) {
    forall a :: a in attempted && Hit(a, o, outputs) ==> StartedBefore(since, ExecStop(a.0, Named([o])), n)
  }

  ghost predicate StartedBefore(since: seq<ExecAction>, a: ExecAction, n: int) {
    exists j :: 0 <= j < |since| && j < n && since[j] == a
  }

  /** Position `k` applies the recipe again on that output, and nothing else is started there. */
  ghost predicate AppliedAgain(since: seq<ExecAction>, k: int, o: string, recipe: Recipe) {
    && 0 <= k < |since| && since[k] == ExecApply(recipe.backend, recipe.media, Named([o]), true)
    && forall j :: 0 <= j < |since| && since[j].ExecApply? && since[j].scope == Named([o]) ==> j == k
  }

  /**
   * Everything that was attempted on the output has been stopped there, and then what it showed before
   * was applied once, if it showed anything.
   */
  ghost predicate BroughtBack(since: seq<ExecAction>, o: string, previous: Option<Recipe>,
        attempted: seq<(Backend, ExecutionScope)>, outputs: seq<string>) {
    match previous
    case None =>
      && StoppedBefore(since, o, attempted, outputs, |since|)
      && forall j :: 0 <= j < |since| && since[j].ExecApply? ==> since[j].scope != Named([o])
    case Some(recipe) =>
      exists k :: AppliedAgain(since, k, o, recipe) && StoppedBefore(since, o, attempted, outputs, k)
  }

  /** A step of the way back: a stop of what was attempted on the output, or its own recipe. */
  ghost predicate Needed(a: ExecAction, o: string, previous: Option<Recipe>,
        attempted: seq<(Backend, ExecutionScope)>, outputs: seq<string>) {
    match a
    case ExecStop(b, _) => exists t :: t in attempted && Hit(t, o, outputs) && t.0 == b
    case ExecApply(b, path, _, instant) =>
      previous.Some? && b == previous.value.backend && path == previous.value.media && instant
  }

  ghost predicate AllNeeded(since: seq<ExecAction>, o: string, previous: Option<Recipe>,
        attempted: seq<(Backend, ExecutionScope)>, outputs: seq<string>) {
    forall k :: 0 <= k < |since| ==>
      since[k].scope == Named([o]) && Needed(since[k], o, previous, attempted, outputs)
  }

  ghost predicate NothingTwice(since: seq<ExecAction>) {
    forall i, j :: 0 <= i < j < |since| ==> since[i] != since[j]
  }

  ghost predicate NoneOn(since: seq<ExecAction>, o: string) {
    forall k :: 0 <= k < |since| ==> since[k].scope != Named([o])
  }

  /** Actions on other outputs, before or after, do not spoil a way back. */
  lemma StaysBroughtBack(x: seq<ExecAction>, w: seq<ExecAction>, o: string, previous: Option<Recipe>,
        attempted: seq<(Backend, ExecutionScope)>, outputs: seq<string>)
    requires BroughtBack(w, o, previous, attempted, outputs) && NoneOn(x, o)
    ensures BroughtBack(x + w, o, previous, attempted, outputs) && BroughtBack(w + x, o, previous, attempted, outputs)
  {
    var n := if previous.Some? then
               var k :| AppliedAgain(w, k, o, previous.value) && StoppedBefore(w, o, attempted, outputs, k); k
             else |w|;
    StaysStopped(x, w, o, attempted, outputs, n);
    forall j | 0 <= j < |x + w| && (x + w)[j].scope == Named([o]) ensures j >= |x| && w[j - |x|] == (x + w)[j] {
    }
    forall j | 0 <= j < |w + x| && (w + x)[j].scope == Named([o]) ensures j < |w| && w[j] == (w + x)[j] {
    }
    if previous.Some? {
      assert AppliedAgain(x + w, |x| + n, o, previous.value);
      assert AppliedAgain(w + x, n, o, previous.value);
    }
  }

  lemma StaysStopped(x: seq<ExecAction>, w: seq<ExecAction>, o: string, attempted: seq<(Backend, ExecutionScope)>,
        outputs: seq<string>, n: nat)
    requires n <= |w| && StoppedBefore(w, o, attempted, outputs, n)
    ensures StoppedBefore(x + w, o, attempted, outputs, |x| + n) && StoppedBefore(w + x, o, attempted, outputs, n)
    ensures StoppedBefore(w + x, o, attempted, outputs, |w + x|)
  {
    forall a | a in attempted && Hit(a, o, outputs)
      ensures StartedBefore(x + w, ExecStop(a.0, Named([o])), |x| + n)
      ensures StartedBefore(w + x, ExecStop(a.0, Named([o])), n)
    {
      assert StartedBefore(w, ExecStop(a.0, Named([o])), n);
      var j :| 0 <= j < |w| && j < n && w[j] == ExecStop(a.0, Named([o]));
      assert (x + w)[|x| + j] == w[j] && (w + x)[j] == w[j];
    }
  }

  lemma ScopedRecipeActions(o: string, recipe: Recipe)
    ensures AllActions([ScopedRecipe(o, recipe)]) == ScopedRecipe(o, recipe).actions
  {
    assert [ScopedRecipe(o, recipe)][1..] == [];
  }

  /** Runs actions that are all confined to one output. */
  method ExecuteOn(runtime: Runtime, actions: seq<ExecAction>, output: string) returns (ok: bool)
    requires forall a :: a in actions ==> a.scope == Named([output])
    modifies runtime
    ensures old(runtime.confirmed) <= runtime.confirmed
    ensures forall o :: o != output ==> Get(runtime.desktop, o) == Get(old(runtime.desktop), o)
    ensures old(runtime.log) <= runtime.log <= old(runtime.log) + actions
    ensures ok ==> runtime.log == old(runtime.log) + actions
    ensures ok <==> runtime.faults == old(runtime.faults)
    ensures runtime.faults >= old(runtime.faults)
  {
    var progress := ExecuteActions(runtime, actions);
    assert actions[..|progress.attempted|] <= actions;
    assert forall i :: 0 <= i < |progress.attempted| ==> actions[i] in actions;
    forall o | o != output ensures !Touched(progress.attempted, o) {
      forall a | a in progress.attempted ensures !InScope(a.1, o) {
        var i :| 0 <= i < |progress.attempted| && progress.attempted[i] == a;
        assert actions[i] in actions && actions[i].scope == Named([output]);
      }
    }
    ok := progress.ok;
  }

  /** The distinct backends whose attempted scope reached an output, in order. */
  function Reaching(attempted: seq<(Backend, ExecutionScope)>, outputs: seq<string>,
        output: string): (backends: seq<Backend>)
    ensures Distinct(backends)
    ensures forall b :: b in backends <==> exists a :: a in attempted && a.0 == b && Hit(a, output, outputs)
  {
    if attempted == [] then []
    else
      var earlier, last := Reaching(attempted[..|attempted| - 1], outputs, output), attempted[|attempted| - 1];
      assert attempted == attempted[..|attempted| - 1] + [last];
      if output in ScopeOutputs(last.1, outputs) && last.0 !in earlier then earlier + [last.0] else earlier
  }

  method BackendsOn(attempted: seq<(Backend, ExecutionScope)>, outputs: seq<string>, output: string)
      returns (backends: seq<Backend>)
    ensures backends == Reaching(attempted, outputs, output)
  {
    backends := [];
    for i := 0 to |attempted|
      invariant backends == Reaching(attempted[..i], outputs, output)
    {
      assert attempted[..i + 1][..i] == attempted[..i];
      if output in ScopeOutputs(attempted[i].1, outputs) && attempted[i].0 !in backends {
        backends := backends + [attempted[i].0];
      }
    }
    assert attempted[..|attempted|] == attempted;
  }

  function StopsOn(backends: seq<Backend>, output: string): (r: seq<ExecAction>)
    ensures |r| == |backends| && forall i :: 0 <= i < |r| ==> r[i] == ExecStop(backends[i], Named([output]))
  {
    if backends == [] then [] else [ExecStop(backends[0], Named([output]))] + StopsOn(backends[1..], output)
  }

  /** The way back of one output: stop everything attempted there, then re-apply what it showed. */
  function WayBack(before: Before, attempted: seq<(Backend, ExecutionScope)>, outputs: seq<string>): seq<ExecAction> {
    StopsOn(Reaching(attempted, outputs, before.output), before.output) + Reapplied(before)
  }

  function Reapplied(before: Before): seq<ExecAction> {
    if before.previous.Some? then ScopedRecipe(before.output, before.previous.value).actions else []
  }

  lemma StopsReachEverything(before: Before, attempted: seq<(Backend, ExecutionScope)>, outputs: seq<string>,
        since: seq<ExecAction>)
    requires StopsOn(Reaching(attempted, outputs, before.output), before.output) <= since
    ensures StoppedBefore(since, before.output, attempted, outputs,
              |StopsOn(Reaching(attempted, outputs, before.output), before.output)|)
  {
    var o := before.output;
    var backends := Reaching(attempted, outputs, o);
    forall a | a in attempted && Hit(a, o, outputs)
      ensures StartedBefore(since, ExecStop(a.0, Named([o])), |backends|)
    {
      assert a.0 in backends;
      var i :| 0 <= i < |backends| && backends[i] == a.0;
      assert since[i] == StopsOn(backends, o)[i];
    }
  }

  /** Performed in full it brings the output back; cut short it still holds nothing superfluous. */
  lemma WayBackIsRight(before: Before, attempted: seq<(Backend, ExecutionScope)>, outputs: seq<string>,
        since: seq<ExecAction>)
    requires since <= WayBack(before, attempted, outputs)
    ensures AllNeeded(since, before.output, before.previous, attempted, outputs) && NothingTwice(since)
    ensures since == WayBack(before, attempted, outputs) ==>
              BroughtBack(since, before.output, before.previous, attempted, outputs)
  {
    var o, backends := before.output, Reaching(attempted, outputs, before.output);
    var stops := StopsOn(backends, o);
    forall k | 0 <= k < |since|
      ensures since[k].scope == Named([o]) && Needed(since[k], o, before.previous, attempted, outputs)
      ensures k < |stops| ==> since[k] == stops[k]
      ensures k >= |stops| ==> k == |stops| && since[k].ExecApply?
    {
      assert since[k] == WayBack(before, attempted, outputs)[k];
      if k < |stops| {
        assert backends[k] in backends;
      }
    }
    if since == WayBack(before, attempted, outputs) {
      StopsReachEverything(before, attempted, outputs, since);
      if before.previous.Some? {
        assert AppliedAgain(since, |stops|, o, before.previous.value);
      }
    }
  }

  function Position(recovery: seq<Recovery>, output: string): (i: nat)
    ensures i <= |recovery|
    ensures i < |recovery| ==> recovery[i].output == output
    ensures i == |recovery| ==> forall r :: r in recovery ==> r.output != output
  {
    if recovery == [] || recovery[0].output == output then 0 else 1 + Position(recovery[1..], output)
  }

  /** The prepared recovery puts back what the output showed. */
  ghost predicate Leads(r: Recovery, before: Before) {
    before.previous.Some? && r.steps == [ScopedRecipe(before.output, before.previous.value)]
  }

  /** Every output still to be compensated that showed something has its own recovery at hand. */
  ghost predicate Provided(recovery: seq<Recovery>, before: seq<Before>, i: nat) {
    && (forall r, j :: r in recovery && 0 <= j < |before| && before[j].output == r.output ==> Leads(r, before[j]))
    && forall j :: i <= j < |before| && before[j].previous.Some? ==>
         exists r :: r in recovery && r.output == before[j].output
  }

  /**
   * A failed restoration has a cause: a failed check, stop, recovery action, verification or
   * observation, or, where there was no renderer before, one that still shows although everything
   * attempted there has been stopped.
   */
  ghost predicate Excused(failed: bool, since: seq<ExecAction>, before: Before, progress: Progress,
        outputs: seq<string>, known: seq<string>, now: Desktop) {
    || failed
    || (&& before.previous.None? && (before.output in now || before.output !in known)
        && StoppedBefore(since, before.output, progress.attempted, outputs, |since|))
  }

  /** Tries to bring one output back; `None` is success. */
  method RestoreOutput(runtime: Runtime, batch: Batch, before: Before, progress: Progress, recovery: seq<Recovery>)
    returns (error: Option<CompensationError>, remaining: seq<Recovery>)
    requires before.previous.Some? ==> exists r :: r in recovery && r.output == before.output
    requires forall r :: r in recovery && r.output == before.output ==> Leads(r, before)
    modifies runtime
    ensures old(runtime.confirmed) <= runtime.confirmed
    ensures error.None? ==> (InTime, |old(runtime.log)|) in runtime.confirmed[|old(runtime.confirmed)|..]
    ensures forall o :: o != before.output ==> Get(runtime.desktop, o) == Get(old(runtime.desktop), o)
    ensures error.None? ==> Get(runtime.desktop, before.output) == before.previous
    ensures old(runtime.log) <= runtime.log && runtime.faults >= old(runtime.faults)
    ensures var since := runtime.log[|old(runtime.log)|..];
            && AllNeeded(since, before.output, before.previous, progress.attempted, batch.outputs)
            && NothingTwice(since)
            && (error.None? ==>
                  BroughtBack(since, before.output, before.previous, progress.attempted, batch.outputs))
            && (error.Some? ==>
                  Excused(runtime.faults > old(runtime.faults), since, before, progress, batch.outputs, batch.known,
                          runtime.desktop))
    ensures error != Some(PreparedRecoveryMissing) && error != Some(CleanupUnconfirmed)
    ensures forall r :: r in remaining ==> r in recovery
    ensures forall r :: r in recovery && r.output != before.output ==> r in remaining
  {
    ghost var log, way := runtime.log, WayBack(before, progress.attempted, batch.outputs);
    var backends := BackendsOn(progress.attempted, batch.outputs, before.output);
    assert before.previous.None? ==> way == StopsOn(backends, before.output) + [];
    error, remaining := StopAndReapply(runtime, batch, before, backends, recovery);
    SinceIs(log, way, runtime.log);
    WayBackIsRight(before, progress.attempted, batch.outputs, runtime.log[|log|..]);
    if before.previous.None? && runtime.log == log + way {
      StopsReachEverything(before, progress.attempted, batch.outputs, runtime.log[|log|..]);
    }
  }

  /** Runs the way back as far as it goes, within the budget, and confirms where it led. */
  method StopAndReapply(runtime: Runtime, batch: Batch, before: Before, backends: seq<Backend>,
        recovery: seq<Recovery>)
    returns (error: Option<CompensationError>, remaining: seq<Recovery>)
    requires before.previous.Some? ==> exists r :: r in recovery && r.output == before.output
    requires forall r :: r in recovery && r.output == before.output ==> Leads(r, before)
    modifies runtime
    ensures old(runtime.confirmed) <= runtime.confirmed
    ensures error.None? ==> (InTime, |old(runtime.log)|) in runtime.confirmed[|old(runtime.confirmed)|..]
    ensures forall o :: o != before.output ==> Get(runtime.desktop, o) == Get(old(runtime.desktop), o)
    ensures error.None? ==> Get(runtime.desktop, before.output) == before.previous
    ensures var way := StopsOn(backends, before.output) + Reapplied(before);
            && old(runtime.log) <= runtime.log <= old(runtime.log) + way
            && (error.None? ==> runtime.log == old(runtime.log) + way)
            && (error.Some? && runtime.faults == old(runtime.faults) ==>
                  && before.previous.None? && runtime.log == old(runtime.log) + way
                  && (before.output in runtime.desktop || before.output !in batch.known))
    ensures runtime.faults >= old(runtime.faults)
    ensures error != Some(PreparedRecoveryMissing) && error != Some(CleanupUnconfirmed)
    ensures forall r :: r in remaining ==> r in recovery
    ensures forall r :: r in recovery && r.output != before.output ==> r in remaining
    ensures error.None? && before.previous.Some? ==> |remaining| == |recovery| - 1
  {
    remaining := recovery;
    ghost var log, stops, first := runtime.log, StopsOn(backends, before.output), runtime.confirmed;
    assert log + (stops + Reapplied(before)) == log + stops + Reapplied(before);
    var inTime := runtime.Check(InTime);
    if !inTime {
      return Some(BudgetExhausted), remaining;
    }
    var stopped := ExecuteOn(runtime, StopsOn(backends, before.output), before.output);
    if !stopped {
      return Some(StopFailed), remaining;
    }
    match before.previous {
      case Some(recipe) =>
        var index := Position(recovery, before.output);
        if index == |recovery| {
          return Some(PreparedRecoveryMissing), remaining;
        }
        assert recovery[index] in recovery;
        remaining := recovery[..index] + recovery[index + 1..];
        assert recovery == recovery[..index] + [recovery[index]] + recovery[index + 1..];
        ScopedRecipeActions(before.output, recipe);
        var executed := ExecuteOn(runtime, AllActions(recovery[index].steps), before.output);
        if !executed {
          return Some(RecoveryNotExecuted), remaining;
        }
        var verified := runtime.VerifyRecipe(before.output, recipe);
        AddedSince(first, first, (InTime, |log|), runtime.confirmed);
        return if verified then None else Some(RecoveryNotVerified), remaining;
      case None =>
        var observed := runtime.ObserveOwnership(batch.known);
        if (before.output, Vacant) in observed {
          var i :| 0 <= i < |observed| && observed[i] == (before.output, Vacant);
          AddedSince(first, first, (InTime, |log|), runtime.confirmed);
          return None, remaining;
        }
        AbsenceExplained(observed, before.output, batch.known, runtime.desktop);
        return Some(AbsenceUnconfirmed), remaining;
    }
  }

  lemma SinceIs(log: seq<ExecAction>, way: seq<ExecAction>, now: seq<ExecAction>)
    requires log <= now <= log + way
    ensures now[|log|..] <= way && (now == log + way ==> now[|log|..] == way)
  {
    var since := now[|log|..];
    assert log + since == now;
    forall k | 0 <= k < |since| ensures since[k] == way[k] {
      assert now[|log| + k] == (log + way)[|log| + k];
    }
  }

  lemma AbsenceExplained(observed: seq<(string, Ownership)>, o: string, known: seq<string>, desktop: Desktop)
    requires Observed(observed, known, desktop) && (o, Vacant) !in observed
    ensures o in desktop || o !in known || !Sure(observed)
  {
    if o in known {
      var i :| 0 <= i < |known| && known[i] == o;
      assert observed[i] == (o, observed[i].1) && observed[i] in observed;
    }
  }

  /** Decides and reports one output. */
  method CompensateOutput(runtime: Runtime, batch: Batch, before: Before, progress: Progress, recovery: seq<Recovery>,
        ghost original: Desktop)
    returns (result: OutputResult, remaining: seq<Recovery>)
    requires before.previous.Some? ==> exists r :: r in recovery && r.output == before.output
    requires forall r :: r in recovery && r.output == before.output ==> Leads(r, before)
    requires before.previous == Get(original, before.output)
    requires before.output !in ChangedBy(progress.attempted, batch.outputs) ==>
               Get(runtime.desktop, before.output) == before.previous
    modifies runtime
    ensures old(runtime.confirmed) <= runtime.confirmed
    ensures result.output == before.output
    ensures Accurate(result, original, runtime.desktop, progress, batch.outputs)
    ensures forall o :: o != before.output || o !in ChangedBy(progress.attempted, batch.outputs) ==>
              Get(runtime.desktop, o) == Get(old(runtime.desktop), o)
    ensures old(runtime.log) <= runtime.log && runtime.faults >= old(runtime.faults)
    ensures Settled(result, runtime.log[|old(runtime.log)|..], before, progress, batch,
              runtime.faults > old(runtime.faults), runtime.desktop)
    ensures forall r :: r in remaining ==> r in recovery
    ensures forall r :: r in recovery && r.output != before.output ==> r in remaining
  {
    remaining := recovery;
    if before.output !in ChangedBy(progress.attempted, batch.outputs) {
      result := OutputResult(before.output, Unchanged, None);
      assert forall i :: 0 <= i < |progress.attempted| ==> progress.attempted[i] in progress.attempted;
    } else {
      var hit :| hit in progress.attempted && Hit(hit, before.output, batch.outputs);
      ghost var i :| 0 <= i < |progress.attempted| && progress.attempted[i] == hit;
      if before.output in UncertainOutputs(progress, batch.outputs) {
        result := OutputResult(before.output, OutcomeUnknown, Some(CleanupUnconfirmed));
      } else {
        var error;
        error, remaining := RestoreOutput(runtime, batch, before, progress, recovery);
        result := OutputResult(before.output, if error.None? then RestoredPrevious else RecoveryFailed, error);
      }
    }
  }

  /** What was done for one output, and why it failed if it did. */
  ghost predicate Settled(result: OutputResult, since: seq<ExecAction>, before: Before, progress: Progress,
        batch: Batch, failed: bool, now: Desktop) {
    && AllNeeded(since, before.output, before.previous, progress.attempted, batch.outputs) && NothingTwice(since)
    && (result.outcome.Unchanged? || result.outcome.OutcomeUnknown? ==> since == [])
    && (result.outcome.RestoredPrevious? ==>
          BroughtBack(since, before.output, before.previous, progress.attempted, batch.outputs))
    && (result.outcome.RecoveryFailed? ==>
          Excused(failed, since, before, progress, batch.outputs, batch.known, now))
  }

  /** Every output of the batch is reported once, in order, and truthfully. */
  ghost predicate Reported(results: seq<OutputResult>, outputs: seq<string>, progress: Progress, all: seq<string>,
        original: Desktop, now: Desktop) {
    && |results| == |outputs|
    && forall i :: 0 <= i < |results| ==>
         && results[i].output == outputs[i]
         && Accurate(results[i], original, now, progress, all)
  }

  /** A later step on another output leaves the earlier reports true. */
  lemma StillReported(results: seq<OutputResult>, outputs: seq<string>, progress: Progress, all: seq<string>,
        original: Desktop, earlier: Desktop, now: Desktop, o: string)
    requires Reported(results, outputs, progress, all, original, earlier) && o !in outputs
    requires forall x :: x != o ==> Get(now, x) == Get(earlier, x)
    ensures Reported(results, outputs, progress, all, original, now)
  {
    forall i | 0 <= i < |results| ensures Accurate(results[i], original, now, progress, all) {
      assert outputs[i] in outputs;
      assert Get(now, outputs[i]) == Get(earlier, outputs[i]);
    }
  }

  lemma ChangedAreTouched(attempted: seq<(Backend, ExecutionScope)>, outputs: seq<string>, o: string)
    requires o in ChangedBy(attempted, outputs)
    ensures Touched(attempted, o)
  {
    var a :| a in attempted && Hit(a, o, outputs);
    assert InScope(a.1, o);
  }

  /**
   * The action is confined to one output of the batch that was changed and is not in doubt, and is needed
   * to bring that output back.
   */
  ghost predicate Certain(a: ExecAction, progress: Progress, outputs: seq<string>, original: Desktop) {
    exists o :: o in outputs && CertainOn(a, o, progress, outputs, original)
  }

  ghost predicate CertainOn(a: ExecAction, o: string, progress: Progress, outputs: seq<string>, original: Desktop) {
    && a.scope == Named([o]) && o in ChangedBy(progress.attempted, outputs) && !InDoubt(progress, o, outputs)
    && Needed(a, o, Get(original, o), progress.attempted, outputs)
  }

  ghost predicate AllCertain(since: seq<ExecAction>, progress: Progress, outputs: seq<string>, original: Desktop) {
    forall k :: 0 <= k < |since| ==> Certain(since[k], progress, outputs, original)
  }

  /** Every output is settled by what has been started since, in whatever order. */
  ghost predicate AllSettled(results: seq<OutputResult>, since: seq<ExecAction>, before: seq<Before>,
        progress: Progress, batch: Batch, failed: bool, now: Desktop) {
    && |results| <= |before|
    && forall i :: 0 <= i < |results| ==>
         && results[i].output == before[i].output
         && (results[i].outcome.RestoredPrevious? ==>
               BroughtBack(since, before[i].output, before[i].previous, progress.attempted, batch.outputs))
         && (results[i].outcome.RecoveryFailed? ==>
               Excused(failed, since, before[i], progress, batch.outputs, batch.known, now))
  }

  /** What has been started since touches each output only once it is dealt with, and does nothing twice. */
  ghost predicate InTurn(since: seq<ExecAction>, before: seq<Before>, i: int) {
    && NothingTwice(since)
    && (forall j :: 0 <= i <= j < |before| ==> NoneOn(since, before[j].output))
    && forall k :: 0 <= k < |since| ==>
         exists j :: 0 <= j < i && j < |before| && since[k].scope == Named([before[j].output])
  }

  lemma OneMoreInTurn(since: seq<ExecAction>, w: seq<ExecAction>, before: seq<Before>, i: nat, progress: Progress,
        outputs: seq<string>)
    requires i < |before| && InTurn(since, before, i) && NothingTwice(w)
    requires forall j, k :: 0 <= j < k < |before| ==> before[j].output != before[k].output
    requires AllNeeded(w, before[i].output, before[i].previous, progress.attempted, outputs)
    ensures InTurn(since + w, before, i + 1)
  {
    var all := since + w;
    forall k | 0 <= k < |all|
      ensures exists j :: 0 <= j < i + 1 && j < |before| && all[k].scope == Named([before[j].output])
    {
      if k < |since| {
        assert all[k] == since[k];
      } else {
        assert all[k] == w[k - |since|] && all[k].scope == Named([before[i].output]);
      }
    }
    forall j, k | 0 <= j < k < |all| ensures all[j] != all[k] {
      if j < |since| <= k {
        assert since[j].scope != Named([before[i].output]) && w[k - |since|].scope == Named([before[i].output]);
      }
    }
    forall j, k | i + 1 <= j < |before| && 0 <= k < |all| ensures all[k].scope != Named([before[j].output]) {
      if k >= |since| {
        assert [before[i].output][0] != [before[j].output][0];
      }
    }
  }

  lemma OneMoreCertain(since: seq<ExecAction>, w: seq<ExecAction>, before: Before, progress: Progress,
        outputs: seq<string>, original: Desktop)
    requires AllCertain(since, progress, outputs, original) && before.previous == Get(original, before.output)
    requires AllNeeded(w, before.output, before.previous, progress.attempted, outputs) && before.output in outputs
    requires w != [] ==>
               before.output in ChangedBy(progress.attempted, outputs) && !InDoubt(progress, before.output, outputs)
    ensures AllCertain(since + w, progress, outputs, original)
  {
    forall k | 0 <= k < |since + w| ensures Certain((since + w)[k], progress, outputs, original) {
      if k >= |since| {
        assert (since + w)[k] == w[k - |since|];
        assert CertainOn(w[k - |since|], before.output, progress, outputs, original);
      }
    }
  }

  lemma OneMoreSettled(since: seq<ExecAction>, w: seq<ExecAction>, results: seq<OutputResult>, before: seq<Before>,
        result: OutputResult, progress: Progress, batch: Batch, failed: bool, now: bool, earlier: Desktop,
        desktop: Desktop)
    requires |results| < |before| && InTurn(since, before, |results|)
    requires forall j, k :: 0 <= j < k < |before| ==> before[j].output != before[k].output
    requires AllSettled(results, since, before, progress, batch, failed, earlier)
    requires forall o :: o != before[|results|].output ==> Get(desktop, o) == Get(earlier, o)
    requires result.output == before[|results|].output
    requires Settled(result, w, before[|results|], progress, batch, now, desktop)
    ensures AllSettled(results + [result], since + w, before, progress, batch, failed || now, desktop)
  {
    var i := |results|;
    forall j | 0 <= j <= i
      ensures (results + [result])[j].outcome.RestoredPrevious? ==>
                BroughtBack(since + w, before[j].output, before[j].previous, progress.attempted, batch.outputs)
      ensures (results + [result])[j].outcome.RecoveryFailed? ==>
                Excused(failed || now, since + w, before[j], progress, batch.outputs, batch.known, desktop)
    {
      if j < i {
        OtherStaysSettled(since, w, results[j], before[j], before[i], progress, batch, failed, now, earlier, desktop);
      } else {
        LastIsSettled(since, w, result, before[i], progress, batch, failed, now, desktop);
      }
    }
  }

  lemma OneMoreOutput(since: seq<ExecAction>, w: seq<ExecAction>, results: seq<OutputResult>, before: seq<Before>,
        result: OutputResult, progress: Progress, batch: Batch, failed: bool, now: bool, original: Desktop,
        earlier: Desktop, desktop: Desktop)
    requires Distinct(batch.outputs) && Records(before, batch.outputs, original)
    requires |results| < |before| && InTurn(since, before, |results|)
    requires AllCertain(since, progress, batch.outputs, original)
    requires AllSettled(results, since, before, progress, batch, failed, earlier)
    requires forall o :: o != before[|results|].output ==> Get(desktop, o) == Get(earlier, o)
    requires result.output == before[|results|].output
    requires Settled(result, w, before[|results|], progress, batch, now, desktop)
    requires Accurate(result, original, desktop, progress, batch.outputs)
    ensures InTurn(since + w, before, |results| + 1) && AllCertain(since + w, progress, batch.outputs, original)
    ensures AllSettled(results + [result], since + w, before, progress, batch, failed || now, desktop)
  {
    var last := before[|results|];
    assert batch.outputs[|results|] in batch.outputs;
    OneMoreInTurn(since, w, before, |results|, progress, batch.outputs);
    if w != [] {
      var i :| 0 <= i < |progress.attempted| && Hit(progress.attempted[i], last.output, batch.outputs);
      assert progress.attempted[i] in progress.attempted;
    }
    OneMoreCertain(since, w, last, progress, batch.outputs, original);
    OneMoreSettled(since, w, results, before, result, progress, batch, failed, now, earlier, desktop);
  }

  lemma OtherStaysSettled(since: seq<ExecAction>, w: seq<ExecAction>, result: OutputResult, before: Before,
        last: Before, progress: Progress, batch: Batch, failed: bool, now: bool, earlier: Desktop, desktop: Desktop)
    requires before.output != last.output && Get(desktop, before.output) == Get(earlier, before.output)
    requires AllNeeded(w, last.output, last.previous, progress.attempted, batch.outputs)
    ensures BroughtBack(since, before.output, before.previous, progress.attempted, batch.outputs) ==>
              BroughtBack(since + w, before.output, before.previous, progress.attempted, batch.outputs)
    ensures Excused(failed, since, before, progress, batch.outputs, batch.known, earlier) ==>
              Excused(failed || now, since + w, before, progress, batch.outputs, batch.known, desktop)
  {
    assert [before.output][0] != [last.output][0];
    assert NoneOn(w, before.output);
    if BroughtBack(since, before.output, before.previous, progress.attempted, batch.outputs) {
      StaysBroughtBack(w, since, before.output, before.previous, progress.attempted, batch.outputs);
    }
    if StoppedBefore(since, before.output, progress.attempted, batch.outputs, |since|) {
      StaysStopped(w, since, before.output, progress.attempted, batch.outputs, |since|);
    }
  }

  lemma LastIsSettled(since: seq<ExecAction>, w: seq<ExecAction>, result: OutputResult, before: Before,
        progress: Progress, batch: Batch, failed: bool, now: bool, desktop: Desktop)
    requires NoneOn(since, before.output) && Settled(result, w, before, progress, batch, now, desktop)
    ensures result.outcome.RestoredPrevious? ==>
              BroughtBack(since + w, before.output, before.previous, progress.attempted, batch.outputs)
    ensures result.outcome.RecoveryFailed? ==>
              Excused(failed || now, since + w, before, progress, batch.outputs, batch.known, desktop)
  {
    if result.outcome.RestoredPrevious? {
      StaysBroughtBack(since, w, before.output, before.previous, progress.attempted, batch.outputs);
    }
    if StoppedBefore(w, before.output, progress.attempted, batch.outputs, |w|) {
      StaysStopped(since, w, before.output, progress.attempted, batch.outputs, |w|);
    }
  }

  /** Outputs that no attempt reached are as they were. */
  ghost predicate Kept(original: Desktop, now: Desktop, progress: Progress, outputs: seq<string>) {
    && (forall o :: o in outputs && o !in ChangedBy(progress.attempted, outputs) ==> Get(now, o) == Get(original, o))
    && forall o :: !Touched(progress.attempted, o) ==> Get(now, o) == Get(original, o)
  }

  lemma StillKept(original: Desktop, earlier: Desktop, now: Desktop, progress: Progress, outputs: seq<string>)
    requires Kept(original, earlier, progress, outputs)
    requires forall o :: o !in ChangedBy(progress.attempted, outputs) ==> Get(now, o) == Get(earlier, o)
    ensures Kept(original, now, progress, outputs)
  {
    forall o | !Touched(progress.attempted, o) ensures Get(now, o) == Get(original, o) {
      if o in ChangedBy(progress.attempted, outputs) {
        ChangedAreTouched(progress.attempted, outputs, o);
      }
    }
  }

  lemma OneMoreReported(results: seq<OutputResult>, outputs: seq<string>, i: nat, progress: Progress,
        original: Desktop, earlier: Desktop, now: Desktop, result: OutputResult)
    requires Distinct(outputs) && i < |outputs| && Reported(results, outputs[..i], progress, outputs, original, earlier)
    requires forall o :: o != outputs[i] ==> Get(now, o) == Get(earlier, o)
    requires result.output == outputs[i]
    requires Accurate(result, original, now, progress, outputs)
    ensures Reported(results + [result], outputs[..i + 1], progress, outputs, original, now)
  {
    StillReported(results, outputs[..i], progress, outputs, original, earlier, now, outputs[i]);
  }

  lemma LogGrows(base: seq<ExecAction>, since: seq<ExecAction>, now: seq<ExecAction>)
    requires base + since <= now
    ensures now == base + (since + now[|base + since|..])
  {
    assert base + (since + now[|base + since|..]) == base + since + now[|base + since|..];
  }

  /** How far compensation has come after `i` outputs. */
  ghost predicate SoFar(results: seq<OutputResult>, since: seq<ExecAction>, recovery: seq<Recovery>,
        before: seq<Before>, i: nat, progress: Progress, batch: Batch, original: Desktop, desktop: Desktop,
        failed: bool) {
    && i <= |batch.outputs| && |results| == i
    && Reported(results, batch.outputs[..i], progress, batch.outputs, original, desktop)
    && Kept(original, desktop, progress, batch.outputs) && Provided(recovery, before, i)
    && InTurn(since, before, i) && AllCertain(since, progress, batch.outputs, original)
    && AllSettled(results, since, before, progress, batch, failed, desktop)
  }

  lemma SoFarNext(results: seq<OutputResult>, since: seq<ExecAction>, recovery: seq<Recovery>, before: seq<Before>,
        i: nat, progress: Progress, batch: Batch, original: Desktop, earlier: Desktop, failed: bool,
        result: OutputResult, w: seq<ExecAction>, remaining: seq<Recovery>, desktop: Desktop, now: bool)
    requires Distinct(batch.outputs) && Records(before, batch.outputs, original) && i < |before|
    requires SoFar(results, since, recovery, before, i, progress, batch, original, earlier, failed)
    requires result.output == before[i].output && Accurate(result, original, desktop, progress, batch.outputs)
    requires forall o :: o != before[i].output || o !in ChangedBy(progress.attempted, batch.outputs) ==>
               Get(desktop, o) == Get(earlier, o)
    requires Settled(result, w, before[i], progress, batch, now, desktop)
    requires forall r :: r in remaining ==> r in recovery
    requires forall r :: r in recovery && r.output != before[i].output ==> r in remaining
    ensures SoFar(results + [result], since + w, remaining, before, i + 1, progress, batch, original, desktop,
              failed || now)
  {
    StillKept(original, earlier, desktop, progress, batch.outputs);
    OneMoreReported(results, batch.outputs, i, progress, original, earlier, desktop, result);
    OneMoreOutput(since, w, results, before, result, progress, batch, failed, now, original, earlier, desktop);
    StillProvided(recovery, remaining, before, i);
  }

  /**
   * Works output by output. Whatever fails, an output reported as unchanged or restored shows exactly
   * what it showed before the switch, and an output no attempt reached is never touched.
   */
  method Compensate(runtime: Runtime, batch: Batch, prepared: Prepared, progress: Progress, ghost original: Desktop)
      returns (report: Report)
    requires Distinct(batch.outputs) && Records(prepared.before, batch.outputs, original)
    requires prepared.recovery == Recoveries(prepared.before)
    requires forall o :: !Touched(progress.attempted, o) ==> Get(runtime.desktop, o) == Get(original, o)
    modifies runtime
    ensures old(runtime.confirmed) <= runtime.confirmed
    ensures Reported(report.outputs, batch.outputs, progress, batch.outputs, original, runtime.desktop)
    ensures report.outcome == Aggregate(ChangedBy(progress.attempted, batch.outputs), progress.uncertain,
              report.outputs)
    ensures forall o :: !Touched(progress.attempted, o) ==> Get(runtime.desktop, o) == Get(original, o)
    ensures forall o :: o !in batch.outputs ==> Get(runtime.desktop, o) == Get(old(runtime.desktop), o)
    ensures old(runtime.log) <= runtime.log && runtime.faults >= old(runtime.faults)
    ensures var since := runtime.log[|old(runtime.log)|..];
            && AllCertain(since, progress, batch.outputs, original) && NothingTwice(since)
            && AllSettled(report.outputs, since, prepared.before, progress, batch,
                          runtime.faults > old(runtime.faults), runtime.desktop)
  {
    var before, recovery := prepared.before, prepared.recovery;
    var results: seq<OutputResult> := [];
    ghost var since: seq<ExecAction> := [];
    RecoveriesProvide(before);
    forall o | o in batch.outputs && o !in ChangedBy(progress.attempted, batch.outputs)
      ensures Get(runtime.desktop, o) == Get(original, o)
    {
      UnchangedUntouched(progress.attempted, batch.outputs, o);
    }
    for i := 0 to |before|
      invariant SoFar(results, since, recovery, before, i, progress, batch, original, runtime.desktop,
                  runtime.faults > old(runtime.faults))
      invariant forall o :: o !in batch.outputs ==> Get(runtime.desktop, o) == Get(old(runtime.desktop), o)
      invariant runtime.log == old(runtime.log) + since && runtime.faults >= old(runtime.faults)
      invariant old(runtime.confirmed) <= runtime.confirmed
    {
      ghost var earlier, faults, log := runtime.desktop, runtime.faults, runtime.log;
      assert before[i].output in batch.outputs;
      var result, remaining := CompensateOutput(runtime, batch, before[i], progress, recovery, original);
      ghost var w := runtime.log[|log|..];
      SoFarNext(results, since, recovery, before, i, progress, batch, original, earlier, faults > old(runtime.faults),
            result, w, remaining, runtime.desktop, runtime.faults > faults);
      LogGrows(old(runtime.log), since, runtime.log);
      since := since + w;
      recovery := remaining;
      results := results + [result];
    }
    assert batch.outputs[..|before|] == batch.outputs;
    assert runtime.log[|old(runtime.log)|..] == since;
    report := Report(Aggregate(ChangedBy(progress.attempted, batch.outputs), progress.uncertain, results), results);
  }

  /** Every prepared recovery belongs to an output that showed something, and each of those has one. */
  lemma {:induction false} RecoveriesMembers(before: seq<Before>)
    ensures forall r :: r in Recoveries(before) ==>
              exists j :: 0 <= j < |before| && before[j].output == r.output && Leads(r, before[j])
    ensures forall j :: 0 <= j < |before| && before[j].previous.Some? ==>
              Recovery(before[j].output, [ScopedRecipe(before[j].output, before[j].previous.value)])
                in Recoveries(before)
  {
    if before != [] {
      var n := |before| - 1;
      RecoveriesMembers(before[..n]);
      forall r | r in Recoveries(before)
        ensures exists j :: 0 <= j < |before| && before[j].output == r.output && Leads(r, before[j])
      {
        if r in Recoveries(before[..n]) {
          var j :| 0 <= j < n && before[..n][j].output == r.output && Leads(r, before[..n][j]);
          assert before[j].output == r.output && Leads(r, before[j]);
        } else {
          assert Leads(r, before[n]);
        }
      }
      forall j | 0 <= j < |before| && before[j].previous.Some?
        ensures Recovery(before[j].output,
                  [ScopedRecipe(before[j].output, before[j].previous.value)]) in Recoveries(before)
      {
        assert j < n ==> before[..n][j] == before[j];
      }
    }
  }

  lemma RecoveriesProvide(before: seq<Before>)
    requires forall j, k :: 0 <= j < k < |before| ==> before[j].output != before[k].output
    ensures Provided(Recoveries(before), before, 0)
  {
    RecoveriesMembers(before);
    forall j | 0 <= j < |before| && before[j].previous.Some?
      ensures exists r :: r in Recoveries(before) && r.output == before[j].output
    {
      assert Recovery(before[j].output, [ScopedRecipe(before[j].output, before[j].previous.value)])
                in Recoveries(before);
    }
    forall r, j | r in Recoveries(before) && 0 <= j < |before| && before[j].output == r.output
      ensures Leads(r, before[j])
    {
      var k :| 0 <= k < |before| && before[k].output == r.output && Leads(r, before[k]);
      assert j == k;
    }
  }

  lemma StillProvided(recovery: seq<Recovery>, remaining: seq<Recovery>, before: seq<Before>, i: nat)
    requires i < |before| && Provided(recovery, before, i)
    requires forall j, k :: 0 <= j < k < |before| ==> before[j].output != before[k].output
    requires forall r :: r in remaining ==> r in recovery
    requires forall r :: r in recovery && r.output != before[i].output ==> r in remaining
    ensures Provided(remaining, before, i + 1)
  {
    forall j | i + 1 <= j < |before| && before[j].previous.Some?
      ensures exists r :: r in remaining && r.output == before[j].output
    {
      var r :| r in recovery && r.output == before[j].output;
      assert r in remaining;
    }
  }

  // ---------------------------------------------------------------- the aggregate outcome

  /** The outcomes compensation can report for a batch, given what was attempted. */
  ghost predicate Consistent(results: seq<OutputResult>, outputs: seq<string>, changed: set<string>,
        uncertain: set<string>) {
    && |results| == |outputs|
    && forall i :: 0 <= i < |results| ==>
         && results[i].output == outputs[i]
         && results[i].outcome in {Unchanged, RestoredPrevious, RecoveryFailed, OutcomeUnknown}
         && (results[i].outcome.Unchanged? <==> outputs[i] !in changed)
         && (results[i].outcome.OutcomeUnknown? <==> outputs[i] in changed && outputs[i] in uncertain)
  }

  ghost predicate Meets(s: set<string>, outputs: seq<string>) {
    exists o :: o in s && o in outputs
  }

  /** Some output failed, none was restored, and a cleanup is in doubt. */
  predicate DoubtDecides(progress: Progress, results: seq<OutputResult>) {
    && progress.uncertain
    && (exists r :: r in results && Failed(r))
    && forall r :: r in results ==> !r.outcome.RestoredPrevious?
  }

  /**
   * The computed aggregate is the summary of the per-output outcomes exactly when something attempted
   * lies in the batch, if anything was attempted, and an uncertain cleanup shows on an output whenever
   * it is all that decides the aggregate.
   */
  lemma AggregateIsSummary(progress: Progress, outputs: seq<string>, results: seq<OutputResult>)
    requires progress.uncertain ==> progress.attempted != []
    requires Consistent(results, outputs, ChangedBy(progress.attempted, outputs), UncertainOutputs(progress, outputs))
    ensures var changed, uncertain := ChangedBy(progress.attempted, outputs), UncertainOutputs(progress, outputs);
            Aggregate(changed, progress.uncertain, results) == Summary(results)
            <==> (changed == {} || Meets(changed, outputs))
                 && (DoubtDecides(progress, results) ==> Meets(uncertain, outputs))
  {
    var changed, uncertain := ChangedBy(progress.attempted, outputs), UncertainOutputs(progress, outputs);
    UncertainAreChanged(progress, outputs);
    SomeChanged(results, outputs, changed, uncertain);
  }

  lemma UncertainAreChanged(progress: Progress, outputs: seq<string>)
    ensures UncertainOutputs(progress, outputs) <= ChangedBy(progress.attempted, outputs)
  {
    if progress.attempted != [] {
      assert progress.attempted[|progress.attempted| - 1] in progress.attempted;
    }
  }

  lemma SomeChanged(results: seq<OutputResult>, outputs: seq<string>, changed: set<string>, uncertain: set<string>)
    requires Consistent(results, outputs, changed, uncertain) && uncertain <= changed
    ensures (forall r :: r in results ==> r.outcome.Unchanged?) <==> !Meets(changed, outputs)
    ensures (exists r :: r in results && r.outcome.OutcomeUnknown?) <==> Meets(uncertain, outputs)
  {
    if Meets(changed, outputs) {
      var o :| o in changed && o in outputs;
      var i :| 0 <= i < |outputs| && outputs[i] == o;
      assert results[i] in results && !results[i].outcome.Unchanged?;
    }
    if Meets(uncertain, outputs) {
      var o :| o in uncertain && o in outputs;
      var i :| 0 <= i < |outputs| && outputs[i] == o;
      assert results[i] in results && results[i].outcome.OutcomeUnknown?;
    }
    if r :| r in results && r.outcome.OutcomeUnknown? {
      var i :| 0 <= i < |results| && results[i] == r;
      assert outputs[i] in uncertain && outputs[i] in outputs;
    }
    if r :| r in results && !r.outcome.Unchanged? {
      var i :| 0 <= i < |results| && results[i] == r;
      assert outputs[i] in changed && outputs[i] in outputs;
    }
  }

  /** Every attempted scope names at least one output of the batch. */
  ghost predicate ScopesMeetBatch(attempted: seq<(Backend, ExecutionScope)>, outputs: seq<string>) {
    forall a :: a in attempted ==> exists o :: o in ScopeOutputs(a.1, outputs) && o in outputs
  }

  /**
   * When every attempted scope meets the batch the aggregate is a function of the outcomes; it is
   * Unknown exactly when nothing was restored and some output is Unknown.
   */
  lemma AggregateWhenScopesMeet(progress: Progress, outputs: seq<string>, results: seq<OutputResult>)
    requires progress.uncertain ==> progress.attempted != []
    requires Consistent(results, outputs, ChangedBy(progress.attempted, outputs), UncertainOutputs(progress, outputs))
    requires ScopesMeetBatch(progress.attempted, outputs)
    ensures var outcome := Aggregate(ChangedBy(progress.attempted, outputs), progress.uncertain, results);
            && outcome == Summary(results)
            && (outcome.OutcomeUnknown? <==>
                  (exists r :: r in results && r.outcome.OutcomeUnknown?) && forall r :: r in results ==>
                        !r.outcome.RestoredPrevious?)
  {
    MeetingScopesMeet(progress, outputs);
    AggregateIsSummary(progress, outputs, results);
    SummaryUnknown(results);
  }

  lemma SummaryUnknown(results: seq<OutputResult>)
    ensures Summary(results).OutcomeUnknown? <==>
              (exists r :: r in results && r.outcome.OutcomeUnknown?) && forall r :: r in results ==>
                    !r.outcome.RestoredPrevious?
  {
    if r :| r in results && r.outcome.OutcomeUnknown? {
      assert Failed(r) && !r.outcome.Unchanged?;
    }
  }

  /** The reports compensation makes are of that kind. */
  lemma ReportedIsConsistent(results: seq<OutputResult>, progress: Progress, outputs: seq<string>, original: Desktop,
        now: Desktop)
    requires Reported(results, outputs, progress, outputs, original, now)
    ensures Consistent(results, outputs, ChangedBy(progress.attempted, outputs), UncertainOutputs(progress, outputs))
  {
  }

  lemma MeetingScopesMeet(progress: Progress, outputs: seq<string>)
    requires ScopesMeetBatch(progress.attempted, outputs)
    ensures ChangedBy(progress.attempted, outputs) == {} || Meets(ChangedBy(progress.attempted, outputs), outputs)
    ensures progress.uncertain && progress.attempted != [] ==> Meets(UncertainOutputs(progress, outputs), outputs)
  {
    if progress.attempted != [] {
      var last := progress.attempted[|progress.attempted| - 1];
      assert last in progress.attempted;
      var y :| y in ScopeOutputs(last.1, outputs) && y in outputs;
      assert y in ChangedBy(progress.attempted, outputs);
    }
  }

  /** The outcome of an output of a batch that could not restore anything. */
  function Unrestorable(o: string, changed: set<string>, uncertain: set<string>): (r: Outcome)
    ensures r.Unchanged? <==> o !in changed
    ensures r.OutcomeUnknown? <==> o in changed && o in uncertain
    ensures r.RecoveryFailed? <==> o in changed && o !in uncertain
  {
    if o !in changed then Unchanged else if o in uncertain then OutcomeUnknown else RecoveryFailed
  }

  /** A possible report: whatever was changed and could be restored was not. */
  function Unrestored(outputs: seq<string>, changed: set<string>, uncertain: set<string>): (r: seq<OutputResult>)
    ensures |r| == |outputs|
    ensures forall i :: 0 <= i < |r| ==>
              r[i] == OutputResult(outputs[i], Unrestorable(outputs[i], changed, uncertain), None)
  {
    seq(|outputs|, i requires 0 <= i < |outputs| =>
      OutputResult(outputs[i], Unrestorable(outputs[i], changed, uncertain), None))
  }

  /**
   * Known before compensation starts: the aggregate will be the summary, however compensation ends,
   * exactly when nothing was attempted, or something attempted lies in the batch and so does the
   * action in doubt, if there is one.
   */
  lemma AggregateFaithfulExactly(progress: Progress, outputs: seq<string>)
    requires progress.uncertain ==> progress.attempted != []
    ensures var changed, uncertain := ChangedBy(progress.attempted, outputs), UncertainOutputs(progress, outputs);
            (forall results :: Consistent(results, outputs, changed, uncertain) ==>
               Aggregate(changed, progress.uncertain, results) == Summary(results))
            <==> changed == {} || (Meets(changed, outputs) && (progress.uncertain ==> Meets(uncertain, outputs)))
  {
    var changed, uncertain := ChangedBy(progress.attempted, outputs), UncertainOutputs(progress, outputs);
    forall results | Consistent(results, outputs, changed, uncertain)
      ensures Aggregate(changed, progress.uncertain, results) == Summary(results)
              <==> ((changed == {} || Meets(changed, outputs))
                    && (DoubtDecides(progress, results) ==> Meets(uncertain, outputs)))
    {
      AggregateIsSummary(progress, outputs, results);
    }
    var worst := Unrestored(outputs, changed, uncertain);
    assert Consistent(worst, outputs, changed, uncertain);
    UncertainAreChanged(progress, outputs);
    SomeChanged(worst, outputs, changed, uncertain);
    if Meets(changed, outputs) && progress.uncertain && !Meets(uncertain, outputs) {
      var o :| o in changed && o in outputs;
      var i :| 0 <= i < |outputs| && outputs[i] == o;
      assert worst[i] in worst && Failed(worst[i]);
      assert DoubtDecides(progress, worst);
    }
    if changed == {} {
      NothingChangedNothingFailed(outputs, changed, uncertain);
    }
  }

  lemma NothingChangedNothingFailed(outputs: seq<string>, changed: set<string>, uncertain: set<string>)
    requires changed == {}
    ensures forall results: seq<OutputResult> ::
              Consistent(results, outputs, changed, uncertain) ==> forall r :: r in results ==> r.outcome.Unchanged?
  {
  }

  /** A scope outside the batch makes the aggregate claim a restoration no output reports. */
  lemma AggregateMisleadsOutsideTheBatch()
    ensures var progress := Progress([(Capabilities.Awww, Named(["B"]))], false, false);
            var results := [OutputResult("A", Unchanged, None)];
            && Consistent(results, ["A"], ChangedBy(progress.attempted, ["A"]), UncertainOutputs(progress, ["A"]))
            && Aggregate(ChangedBy(progress.attempted, ["A"]), false, results) == RestoredPrevious
            && Summary(results) == Unchanged
  {
    var progress := Progress([(Capabilities.Awww, Named(["B"]))], false, false);
    assert progress.attempted[0] in progress.attempted && "B" in ScopeOutputs(progress.attempted[0].1, ["A"]);
    assert "B" in ChangedBy(progress.attempted, ["A"]);
    assert "A"[0] != "B"[0];
  }

  // ---------------------------------------------------------------- the whole operation

  datatype SwitchResult = Refused(why: PreflightError) | Finished(report: Report)

  /** The recipe of a step shows on every output of its scope. */
  ghost predicate Shows(desktop: Desktop, step: TransitionStep, outputs: seq<string>) {
    step.recipe.Some? ==> forall o :: o in ScopeOutputs(step.scope, outputs) ==> Get(desktop, o) == step.recipe
  }

  method VerifySteps(runtime: Runtime, batch: Batch) returns (ok: bool)
    modifies runtime`faults
    ensures runtime.faults == old(runtime.faults) + if ok then 0 else 1
    ensures ok ==> forall s :: s in batch.steps ==> Shows(runtime.desktop, s, batch.outputs)
  {
    for i := 0 to |batch.steps|
      invariant forall j :: 0 <= j < i ==> Shows(runtime.desktop, batch.steps[j], batch.outputs)
      invariant runtime.faults == old(runtime.faults)
      modifies runtime`faults
    {
      var step := batch.steps[i];
      if step.recipe.Some? {
        var outputs := ScopeOutputs(step.scope, batch.outputs);
        for j := 0 to |outputs|
          invariant forall k :: 0 <= k < j ==> Get(runtime.desktop, outputs[k]) == step.recipe
          invariant runtime.faults == old(runtime.faults)
          modifies runtime`faults
        {
          var confirmed := runtime.VerifyRecipe(outputs[j], step.recipe.value);
          if !confirmed {
            return false;
          }
        }
      }
    }
    return true;
  }

  /** Every action's scope names at least one output of the batch. */
  ghost predicate ActionsMeet(actions: seq<ExecAction>, outputs: seq<string>) {
    forall a :: a in actions ==> exists o :: o in ScopeOutputs(a.scope, outputs) && o in outputs
  }

  /** The report is the summary of its outputs; Unknown exactly when nothing came back and something is in doubt. */
  ghost predicate Summarises(report: Report) {
    && report.outcome == Summary(report.outputs)
    && (report.outcome.OutcomeUnknown? <==>
          && (exists r :: r in report.outputs && r.outcome.OutcomeUnknown?)
          && forall r :: r in report.outputs ==> !r.outcome.RestoredPrevious?)
  }

  lemma ReportSummarises(report: Report, progress: Progress, actions: seq<ExecAction>, outputs: seq<string>,
        original: Desktop, now: Desktop)
    requires Reported(report.outputs, outputs, progress, outputs, original, now)
    requires report.outcome == Aggregate(ChangedBy(progress.attempted, outputs), progress.uncertain, report.outputs)
    requires progress.uncertain ==> progress.attempted != []
    requires |progress.attempted| <= |actions|
    requires forall i :: 0 <= i < |progress.attempted| ==>
               progress.attempted[i] == (actions[i].backend, actions[i].scope)
    requires ActionsMeet(actions, outputs)
    ensures Summarises(report)
  {
    forall a | a in progress.attempted ensures exists o :: o in ScopeOutputs(a.1, outputs) && o in outputs {
      var i :| 0 <= i < |progress.attempted| && progress.attempted[i] == a;
      assert actions[i] in actions;
    }
    ReportedIsConsistent(report.outputs, progress, outputs, original, now);
    AggregateWhenScopesMeet(progress, outputs, report.outputs);
  }

  /** What was attempted is a prefix of the actions. */
  ghost predicate Attempts(progress: Progress, actions: seq<ExecAction>) {
    && |progress.attempted| <= |actions|
    && (forall i :: 0 <= i < |progress.attempted| ==> progress.attempted[i] == (actions[i].backend, actions[i].scope))
    && (progress.uncertain ==> progress.attempted != [])
  }

  /** What an applied switch has established. */
  ghost predicate AppliedAll(report: Report, batch: Batch, desktop: Desktop, started: seq<ExecAction>) {
    && report == Report(Applied, AppliedTo(batch.outputs))
    && started == AllActions(batch.steps)
    && forall s :: s in batch.steps ==> Shows(desktop, s, batch.outputs)
  }

  /** How the outputs of a failed switch were dealt with, given what has been started since it failed. */
  ghost predicate Recovered(results: seq<OutputResult>, progress: Progress, outputs: seq<string>, original: Desktop,
        since: seq<ExecAction>) {
    && AllCertain(since, progress, outputs, original) && NothingTwice(since)
    && forall r :: r in results && r.outcome.RestoredPrevious? ==>
         BroughtBack(since, r.output, Get(original, r.output), progress.attempted, outputs)
  }

  /** Whatever was not recovered failed again, or outlives its stop. */
  ghost predicate FailuresExcused(results: seq<OutputResult>, progress: Progress, outputs: seq<string>,
        known: seq<string>, original: Desktop, now: Desktop, since: seq<ExecAction>, failed: bool) {
    forall r :: r in results && r.outcome.RecoveryFailed? ==>
      Excused(failed, since, Before(r.output, Get(original, r.output)), progress, outputs, known, now)
  }

  /** What was attempted is what was started first; whatever was started after it served to take it back. */
  ghost predicate TakenBack(results: seq<OutputResult>, outputs: seq<string>, known: seq<string>,
        actions: seq<ExecAction>, progress: Progress, original: Desktop, now: Desktop, started: seq<ExecAction>,
        failed: bool)
    requires Attempts(progress, actions)
  {
    var executed := actions[..|progress.attempted|];
    && executed <= started
    && Recovered(results, progress, outputs, original, started[|executed|..])
    && FailuresExcused(results, progress, outputs, known, original, now, started[|executed|..], failed)
  }

  /** What a failed switch reports, given what was attempted and what has been started since. */
  ghost predicate Compensated(report: Report, batch: Batch, progress: Progress, original: Desktop, now: Desktop,
        started: seq<ExecAction>, failed: bool)
    requires Attempts(progress, AllActions(batch.steps))
  {
    && Reported(report.outputs, batch.outputs, progress, batch.outputs, original, now)
    && report.outcome == Aggregate(ChangedBy(progress.attempted, batch.outputs), progress.uncertain, report.outputs)
    && TakenBack(report.outputs, batch.outputs, batch.known, AllActions(batch.steps), progress, original, now, started,
                 failed)
    && (ActionsMeet(AllActions(batch.steps), batch.outputs) ==> Summarises(report))
  }

  /** Outputs outside the batch that no action can change are as they were. */
  ghost predicate LeavesOthers(batch: Batch, original: Desktop, now: Desktop) {
    forall o :: o !in batch.outputs && Spared(AllActions(batch.steps), original, o) ==>
          Get(now, o) == Get(original, o)
  }

  /** Executes, verifies and commits; compensates whatever fails. */
  method CarryOut(runtime: Runtime, preferences: Preferences, batch: Batch, prepared: Prepared)
      returns (report: Report, ghost progress: Progress)
    requires Distinct(batch.outputs) && Records(prepared.before, batch.outputs, runtime.desktop)
    requires prepared.recovery == Recoveries(prepared.before)
    modifies runtime, preferences
    ensures old(runtime.confirmed) <= runtime.confirmed
    ensures progress.attempted != [] ==>
              (MediaPresent, |old(runtime.log)|) in runtime.confirmed[|old(runtime.confirmed)|..]
    ensures forall o :: !Touched(progress.attempted, o) ==> Get(runtime.desktop, o) == Get(old(runtime.desktop), o)
    ensures LeavesOthers(batch, old(runtime.desktop), runtime.desktop)
    ensures Attempts(progress, AllActions(batch.steps)) && old(runtime.log) <= runtime.log
    ensures report.outcome.Applied? ==>
              && preferences.commits == old(preferences.commits) + 1
              && AppliedAll(report, batch, runtime.desktop, runtime.log[|old(runtime.log)|..])
    ensures !report.outcome.Applied? ==>
              && preferences.commits == old(preferences.commits)
              && Compensated(report, batch, progress, old(runtime.desktop), runtime.desktop,
                             runtime.log[|old(runtime.log)|..],
                             runtime.faults + preferences.refusals > old(runtime.faults + preferences.refusals) + 1)
    ensures runtime.faults >= old(runtime.faults) && preferences.refusals >= old(preferences.refusals)
    ensures !report.outcome.Applied? ==>
              runtime.faults > old(runtime.faults) || preferences.refusals > old(preferences.refusals)
  {
    ghost var original, log := runtime.desktop, runtime.log;
    assert log + [] == log;
    var executed := ExecuteActions(runtime, AllActions(batch.steps));
    progress := executed;
    ghost var checked := runtime.confirmed;
    if executed.ok {
      var verified := VerifySteps(runtime, batch);
      if verified {
        var committed := preferences.Commit();
        if committed {
          return Report(Applied, AppliedTo(batch.outputs)), progress;
        }
      }
    }
    report := Recover(runtime, batch, prepared, executed, original, log);
    MoreSince(old(runtime.confirmed), checked, runtime.confirmed);
  }

  /** Compensates, and accounts for everything started since the log was `log`. */
  method Recover(runtime: Runtime, batch: Batch, prepared: Prepared, progress: Progress, ghost original: Desktop,
        ghost log: seq<ExecAction>)
    returns (report: Report)
    requires Distinct(batch.outputs) && Records(prepared.before, batch.outputs, original)
    requires prepared.recovery == Recoveries(prepared.before)
    requires forall o :: !Touched(progress.attempted, o) ==> Get(runtime.desktop, o) == Get(original, o)
    requires Attempts(progress, AllActions(batch.steps))
    requires runtime.log == log + AllActions(batch.steps)[..|progress.attempted|]
    modifies runtime
    ensures old(runtime.confirmed) <= runtime.confirmed
    ensures forall o :: !Touched(progress.attempted, o) ==> Get(runtime.desktop, o) == Get(original, o)
    ensures forall o :: o !in batch.outputs ==> Get(runtime.desktop, o) == Get(old(runtime.desktop), o)
    ensures log <= runtime.log && runtime.faults >= old(runtime.faults)
    ensures !report.outcome.Applied?
    ensures Compensated(report, batch, progress, original, runtime.desktop, runtime.log[|log|..],
                        runtime.faults > old(runtime.faults))
  {
    report := Compensate(runtime, batch, prepared, progress, original);
    NeverApplied(report.outputs, ChangedBy(progress.attempted, batch.outputs), progress.uncertain);
    StartedSince(log, old(runtime.log), runtime.log, AllActions(batch.steps)[..|progress.attempted|]);
    ghost var since := runtime.log[|old(runtime.log)|..];
    SettledIsRecovered(report.outputs, since, prepared.before, progress, batch, original,
          runtime.faults > old(runtime.faults), runtime.desktop);
    if ActionsMeet(AllActions(batch.steps), batch.outputs) {
      ReportSummarises(report, progress, AllActions(batch.steps), batch.outputs, original, runtime.desktop);
    }
  }

  lemma NeverApplied(results: seq<OutputResult>, changed: set<string>, uncertain: bool)
    ensures !Aggregate(changed, uncertain, results).Applied?
  {
  }

  lemma StartedSince(log: seq<ExecAction>, middle: seq<ExecAction>, now: seq<ExecAction>, executed: seq<ExecAction>)
    requires middle == log + executed && middle <= now
    ensures log <= now && executed <= now[|log|..] && now[|log|..][|executed|..] == now[|middle|..]
  {
    var since := now[|log|..];
    assert log + since == now;
    forall k | 0 <= k < |executed| ensures since[k] == executed[k] {
      assert since[k] == now[|log| + k] == middle[|log| + k];
    }
  }

  lemma SettledIsRecovered(results: seq<OutputResult>, since: seq<ExecAction>, before: seq<Before>,
        progress: Progress, batch: Batch, original: Desktop, failed: bool, now: Desktop)
    requires |results| == |before| && Records(before, batch.outputs, original)
    requires AllCertain(since, progress, batch.outputs, original) && NothingTwice(since)
    requires AllSettled(results, since, before, progress, batch, failed, now)
    ensures Recovered(results, progress, batch.outputs, original, since)
    ensures FailuresExcused(results, progress, batch.outputs, batch.known, original, now, since, failed)
  {
    forall r | r in results
      ensures r.outcome.RestoredPrevious? ==>
                BroughtBack(since, r.output, Get(original, r.output), progress.attempted, batch.outputs)
      ensures r.outcome.RecoveryFailed? ==>
                Excused(failed, since, Before(r.output, Get(original, r.output)), progress, batch.outputs, batch.known,
                        now)
    {
      var i :| 0 <= i < |results| && results[i] == r;
      assert before[i] == Before(r.output, Get(original, r.output));
    }
  }

  /** The checks, and the journal entry that must be written before anything is started. */
  method PreflightAndJournal(runtime: Runtime, reg: Registry, batch: Batch, saved: map<string, Recipe>)
      returns (r: Result<Prepared, PreflightError>, ghost seen: seq<(string, Ownership)>)
    modifies runtime`faults, runtime`confirmed
    ensures old(runtime.confirmed) <= runtime.confirmed
    ensures r.Success? ==>
              && Observed(seen, batch.known, runtime.desktop) && PairsHold(reg, runtime.session, batch.steps, seen)
              && (forall o :: o in batch.outputs ==> Definite(seen, o))
              && Records(r.value.before, batch.outputs, runtime.desktop)
              && r.value.recovery == Recoveries(r.value.before)
              && ValidOutputs(batch.outputs) && Recoverable(runtime.desktop, batch.outputs, saved)
    ensures r.Success? ==>
              Cleared(runtime.confirmed[|old(runtime.confirmed)|..], batch.outputs, runtime.desktop, |runtime.log|)
    ensures runtime.faults >= old(runtime.faults)
    ensures r.Failure? ==>
              || runtime.faults > old(runtime.faults) || Unfit(runtime.desktop, batch, saved)
              || !PairsFit(reg, runtime.session, batch, runtime.desktop)
  {
    r, seen := Preflight(runtime, reg, batch, saved);
    if r.Success? {
      ghost var checked := runtime.confirmed;
      var journaled := runtime.Check(Journaled);
      if !journaled {
        r := Failure(EnvironmentChanged);
      } else {
        MoreSince(old(runtime.confirmed), checked, runtime.confirmed);
        AddedSince(old(runtime.confirmed), checked, (Journaled, |runtime.log|), runtime.confirmed);
      }
    }
  }

  /**
   * A whole switch, from checks to report. `progress` is what was attempted, `seen` what was observed.
   * Applied: every action ran, every step's recipe shows on its whole scope, the preferences were
   * committed once, and the outputs count as started again if that could be recorded.
   * Anything else commits nothing; a refused switch changes nothing; a failed one is compensated. When
   * nothing in the environment fails and the batch is fit, the switch is applied.
   */
  method Execute(runtime: Runtime, preferences: Preferences, store: SessionIntents.SessionStore, reg: Registry,
        batch: Batch, saved: map<string, Recipe>)
    returns (r: SwitchResult, ghost progress: Progress, ghost seen: seq<(string, Ownership)>)
    modifies runtime, preferences, store
    ensures old(runtime.confirmed) <= runtime.confirmed
    ensures r.Finished? ==>
              Cleared(runtime.confirmed[|old(runtime.confirmed)|..], batch.outputs, old(runtime.desktop),
                |old(runtime.log)|)
    ensures progress.attempted != [] ==>
              (MediaPresent, |old(runtime.log)|) in runtime.confirmed[|old(runtime.confirmed)|..]
    ensures forall o :: !Touched(progress.attempted, o) ==> Get(runtime.desktop, o) == Get(old(runtime.desktop), o)
    ensures LeavesOthers(batch, old(runtime.desktop), runtime.desktop)
    ensures r.Finished? ==>
              && Observed(seen, batch.known, old(runtime.desktop)) && PairsHold(reg, runtime.session, batch.steps, seen)
              && forall o :: o in batch.outputs ==> Definite(seen, o)
    ensures Attempts(progress, AllActions(batch.steps)) && old(runtime.log) <= runtime.log
    ensures runtime.faults >= old(runtime.faults) && preferences.refusals >= old(preferences.refusals)
    ensures r.Refused? ==>
              && runtime.desktop == old(runtime.desktop) && runtime.log == old(runtime.log) && progress.attempted == []
              && preferences.commits == old(preferences.commits) && store.intents == old(store.intents)
    ensures r.Finished? ==> Recoverable(old(runtime.desktop), batch.outputs, saved)
    ensures r.Finished? && r.report.outcome.Applied? ==>
              && preferences.commits == old(preferences.commits) + 1
              && AppliedAll(r.report, batch, runtime.desktop, runtime.log[|old(runtime.log)|..])
              && SessionIntents.Recorded(store, batch.outputs, false)
    ensures r.Finished? && !r.report.outcome.Applied? ==>
              && preferences.commits == old(preferences.commits) && store.intents == old(store.intents)
              && Compensated(r.report, batch, progress, old(runtime.desktop), runtime.desktop,
                             runtime.log[|old(runtime.log)|..],
                             runtime.faults + preferences.refusals > old(runtime.faults + preferences.refusals) + 1)
    ensures !(r.Finished? && r.report.outcome.Applied?) ==>
              || Unfit(old(runtime.desktop), batch, saved)
              || !PairsFit(reg, runtime.session, batch, old(runtime.desktop))
              || runtime.faults > old(runtime.faults) || preferences.refusals > old(preferences.refusals)
  {
    progress := Progress([], false, false);
    var prepared;
    prepared, seen := PreflightAndJournal(runtime, reg, batch, saved);
    if prepared.Failure? {
      return Refused(prepared.error), progress, seen;
    }
    ghost var checked := runtime.confirmed;
    var report;
    report, progress := CarryOut(runtime, preferences, batch, prepared.value);
    MoreSince(old(runtime.confirmed), checked, runtime.confirmed);
    if report.outcome.Applied? {
      var armed := store.SetOutputsStopped(batch.outputs, false);
    }
    return Finished(report), progress, seen;
  }

  function AppliedTo(outputs: seq<string>): (r: seq<OutputResult>)
    ensures |r| == |outputs| && forall i :: 0 <= i < |r| ==> r[i] == OutputResult(outputs[i], Applied, None)
  {
    if outputs == [] then [] else [OutputResult(outputs[0], Applied, None)] + AppliedTo(outputs[1..])
  }
}
