/** An explicit stop: group the occupied outputs by renderer, stop each group, report what is gone. */
module StopDisplays {
  import opened Prelude
  import Capabilities
  import opened ApplyPipeline
  import opened Observation
  import opened SwitchTransaction
  import SessionIntents

  datatype Group = Group(backend: Backend, outputs: seq<string>)

  datatype StopError = InvalidSelection | IntentNotRecorded | SessionChanged | UnsafeToStop(output: string)

  /** Joins an output to its renderer's group, or opens a new one. */
  function Join(groups: seq<Group>, b: Backend, o: string): seq<Group> {
    if groups == [] then [Group(b, [o])]
    else if groups[0].backend == b then [Group(b, groups[0].outputs + [o])] + groups[1..]
    else [groups[0]] + Join(groups[1..], b, o)
  }

  ghost predicate Grouped(groups: seq<Group>, o: string, b: Backend) {
    exists g :: g in groups && g.backend == b && o in g.outputs
  }

  ghost predicate OneGroupPerBackend(groups: seq<Group>) {
    && (forall i, j :: 0 <= i < j < |groups| ==> groups[i].backend != groups[j].backend)
    && forall g :: g in groups ==> g.outputs != []
  }

  lemma GroupedCons(g: Group, rest: seq<Group>, o: string, b: Backend)
    ensures Grouped([g] + rest, o, b) <==> (g.backend == b && o in g.outputs) || Grouped(rest, o, b)
  {
    assert forall x :: x in [g] + rest <==> x == g || x in rest;
  }

  lemma {:induction false} JoinMembers(groups: seq<Group>, b: Backend, o: string, x: string, c: Backend)
    ensures Grouped(Join(groups, b, o), x, c) <==> Grouped(groups, x, c) || (x == o && c == b)
  {
    if groups == [] {
      GroupedCons(Group(b, [o]), [], x, c);
      assert [Group(b, [o])] + [] == [Group(b, [o])];
    } else {
      assert groups == [groups[0]] + groups[1..];
      GroupedCons(groups[0], groups[1..], x, c);
      if groups[0].backend == b {
        GroupedCons(Group(b, groups[0].outputs + [o]), groups[1..], x, c);
      } else {
        GroupedCons(groups[0], Join(groups[1..], b, o), x, c);
        JoinMembers(groups[1..], b, o, x, c);
      }
    }
  }

  lemma {:induction false} JoinShape(groups: seq<Group>, b: Backend, o: string)
    requires OneGroupPerBackend(groups)
    ensures OneGroupPerBackend(Join(groups, b, o))
    ensures forall g :: g in Join(groups, b, o) ==> g.backend == b || g in groups
  {
    if groups != [] && groups[0].backend != b {
      assert OneGroupPerBackend(groups[1..]);
      JoinShape(groups[1..], b, o);
      var rest := Join(groups[1..], b, o);
      forall j | 0 <= j < |rest| ensures rest[j].backend != groups[0].backend {
        assert rest[j] in rest;
      }
    }
  }

  lemma JoinAdds(groups: seq<Group>, b: Backend, o: string)
    requires OneGroupPerBackend(groups)
    ensures OneGroupPerBackend(Join(groups, b, o))
    ensures forall x, c :: Grouped(Join(groups, b, o), x, c) <==> Grouped(groups, x, c) || (x == o && c == b)
  {
    JoinShape(groups, b, o);
    forall x, c ensures Grouped(Join(groups, b, o), x, c) <==> Grouped(groups, x, c) || (x == o && c == b) {
      JoinMembers(groups, b, o, x, c);
    }
  }

  /**
   * Groups exactly the occupied outputs, each under the renderer that owns it, one group per renderer;
   * an output whose owner is unknown makes the whole stop unsafe.
   */
  method GroupByOwner(outputs: seq<string>, ownership: seq<(string, Ownership)>)
      returns (r: Result<seq<Group>, StopError>)
    ensures r.Success? <==>
              forall o :: o in outputs ==> Owner(ownership, o).Some? && !Owner(ownership, o).value.Uncertain?
    ensures r.Failure? ==>
              && r.error.UnsafeToStop? && r.error.output in outputs
              && (Owner(ownership, r.error.output).None? || Owner(ownership, r.error.output).value.Uncertain?)
    ensures r.Success? ==>
              && OneGroupPerBackend(r.value)
              && forall o, b :: Grouped(r.value, o, b) <==> o in outputs && Owner(ownership, o) == Some(Occupied(b))
  {
    var groups: seq<Group> := [];
    for i := 0 to |outputs|
      invariant OneGroupPerBackend(groups)
      invariant forall o :: o in outputs[..i] ==> Owner(ownership, o).Some? && !Owner(ownership, o).value.Uncertain?
      invariant forall o, b :: Grouped(groups, o, b) <==> o in outputs[..i] && Owner(ownership, o) == Some(Occupied(b))
    {
      assert outputs[..i + 1] == outputs[..i] + [outputs[i]];
      match Owner(ownership, outputs[i]) {
        case Some(Vacant) =>
        case Some(Occupied(b)) =>
          JoinAdds(groups, b, outputs[i]);
          groups := Join(groups, b, outputs[i]);
        case _ =>
          assert outputs[i] in outputs;
          return Failure(UnsafeToStop(outputs[i]));
      }
    }
    assert outputs[..|outputs|] == outputs;
    return Success(groups);
  }

  function StopActions(groups: seq<Group>): (r: seq<ExecAction>)
    ensures |r| == |groups| && forall i :: 0 <= i < |r| ==>
              r[i] == ExecStop(groups[i].backend, Named(groups[i].outputs))
  {
    if groups == [] then [] else [ExecStop(groups[0].backend, Named(groups[0].outputs))] + StopActions(groups[1..])
  }

  /** The known outputs, then the selected ones that are not connected. */
  method ObservedNames(known: seq<string>, outputs: seq<string>) returns (names: seq<string>)
    ensures forall o :: o in names <==> o in known || o in outputs
    ensures Distinct(known) ==> Distinct(names)
  {
    names := known;
    for i := 0 to |outputs|
      invariant forall o :: o in names <==> o in known || o in outputs[..i]
      invariant Distinct(known) ==> Distinct(names)
    {
      if outputs[i] !in names {
        names := names + [outputs[i]];
      }
    }
  }

  /** The action stops one renderer, on exactly the selected outputs that showed it. */
  ghost predicate StopsOwner(a: ExecAction, outputs: seq<string>, desktop: Desktop) {
    && a.ExecStop? && a.scope.Named? && a.scope.outputs != []
    && forall o :: o in a.scope.outputs <==> o in outputs && o in desktop && desktop[o].backend == a.backend
  }

  /** What was started stops one renderer each, none twice. */
  ghost predicate StopsOwners(since: seq<ExecAction>, outputs: seq<string>, desktop: Desktop) {
    && (forall k :: 0 <= k < |since| ==> StopsOwner(since[k], outputs, desktop))
    && forall i, j :: 0 <= i < j < |since| ==> since[i].backend != since[j].backend
  }

  /** A stop of what the output showed, with the output in its scope, was started. */
  ghost predicate WasStopped(since: seq<ExecAction>, o: string, desktop: Desktop) {
    && o in desktop
    && exists k :: 0 <= k < |since| && since[k].ExecStop? && since[k].backend == desktop[o].backend
         && since[k].scope.Named? && o in since[k].scope.outputs
  }

  /** The groups are those of what really shows on the selected outputs. */
  ghost predicate TrueGroups(groups: seq<Group>, outputs: seq<string>, desktop: Desktop) {
    && OneGroupPerBackend(groups)
    && forall o, b :: Grouped(groups, o, b) <==> o in outputs && o in desktop && desktop[o].backend == b
  }

  lemma ObservedGroupsAreTrue(groups: seq<Group>, outputs: seq<string>, seen: seq<(string, Ownership)>,
        names: seq<string>, desktop: Desktop)
    requires OneGroupPerBackend(groups) && Observed(seen, names, desktop)
    requires forall o :: o in outputs ==> Owner(seen, o).Some? && !Owner(seen, o).value.Uncertain?
    requires forall o, b :: Grouped(groups, o, b) <==> o in outputs && Owner(seen, o) == Some(Occupied(b))
    ensures TrueGroups(groups, outputs, desktop)
  {
    forall o | o in outputs
      ensures forall b :: Owner(seen, o) == Some(Occupied(b)) <==> o in desktop && desktop[o].backend == b
    {
      var i :| 0 <= i < |seen| && seen[i] == (o, Owner(seen, o).value);
    }
  }

  lemma GroupStopsOwner(groups: seq<Group>, outputs: seq<string>, desktop: Desktop, k: nat)
    requires k < |groups| && TrueGroups(groups, outputs, desktop)
    ensures StopsOwner(StopActions(groups)[k], outputs, desktop)
  {
    var b := groups[k].backend;
    forall o ensures o in groups[k].outputs <==> o in outputs && o in desktop && desktop[o].backend == b {
      assert groups[k] in groups;
      if Grouped(groups, o, b) {
        var g :| g in groups && g.backend == b && o in g.outputs;
        var i :| 0 <= i < |groups| && groups[i] == g;
        assert i == k;
      }
    }
    assert groups[k] in groups;
  }

  lemma EveryOwnerIsStopped(groups: seq<Group>, outputs: seq<string>, desktop: Desktop, o: string)
    requires TrueGroups(groups, outputs, desktop) && o in outputs && o in desktop
    ensures WasStopped(StopActions(groups), o, desktop)
  {
    assert Grouped(groups, o, desktop[o].backend);
    var g :| g in groups && g.backend == desktop[o].backend && o in g.outputs;
    var i :| 0 <= i < |groups| && groups[i] == g;
    assert StopActions(groups)[i] == ExecStop(g.backend, Named(g.outputs));
  }

  /** What an observation after the stop lets the report say of each output. */
  method ReportStopped(outputs: seq<string>, after: seq<(string, Ownership)>, ghost names: seq<string>,
        ghost desktop: Desktop)
      returns (results: seq<OutputResult>)
    requires Observed(after, names, desktop) && forall o :: o in outputs ==> o in names
    ensures |results| == |outputs|
    ensures forall i :: 0 <= i < |outputs| ==>
              && results[i].output == outputs[i] && results[i].outcome in {Stopped, OutcomeUnknown}
              && (results[i].outcome.Stopped? ==> outputs[i] !in desktop)
              && (results[i].outcome.OutcomeUnknown? ==> outputs[i] in desktop || !Sure(after))
  {
    results := [];
    for i := 0 to |outputs|
      invariant |results| == i
      invariant forall j :: 0 <= j < i ==>
                  && results[j].output == outputs[j] && results[j].outcome in {Stopped, OutcomeUnknown}
                  && (results[j].outcome.Stopped? ==> outputs[j] !in desktop)
                  && (results[j].outcome.OutcomeUnknown? ==> outputs[j] in desktop || !Sure(after))
    {
      if (outputs[i], Vacant) in after {
        ghost var k :| 0 <= k < |after| && after[k] == (outputs[i], Vacant);
        results := results + [OutputResult(outputs[i], Stopped, None)];
      } else {
        AbsenceExplained(after, outputs[i], names, desktop);
        results := results + [OutputResult(outputs[i], OutcomeUnknown, Some(AbsenceUnconfirmed))];
      }
    }
  }

  /**
   * Records the stop of the outputs before anything else, so that a failing stop still keeps them from
   * being restored. Never compensates. Each renderer that shows on a selected output is stopped once, on
   * exactly those outputs, and nothing else is started; when nothing fails, all of them are. An output is
   * reported stopped only if it is vacant afterwards, the whole stop only if all are; without a failure
   * only a renderer that outlives its own stop makes it partial.
   */
  method Stop(runtime: Runtime, store: SessionIntents.SessionStore, outputs: seq<string>, known: seq<string>)
      returns (r: Result<Report, StopError>)
    modifies runtime, store
    ensures r == Failure(InvalidSelection) <==> !ValidOutputs(outputs)
    ensures r == Failure(InvalidSelection) ==> store.intents == old(store.intents)
    ensures r == Failure(IntentNotRecorded) ==>
              && store.intents in {old(store.intents), SessionIntents.Written(old(store.intents), outputs, true)}
              && (|| store.faults > old(store.faults)
                  || SessionIntents.MaxEpoch(old(store.intents)) >= SessionIntents.MAX_EPOCH)
    ensures r.Success? || r.error.SessionChanged? || r.error.UnsafeToStop? ==>
              && store.intents == SessionIntents.Written(old(store.intents), outputs, true)
              && forall o :: o in outputs ==> SessionIntents.IsStopped(store.intents, o)
    ensures forall o :: o !in outputs ==> Get(runtime.desktop, o) == Get(old(runtime.desktop), o)
    ensures r.Failure? ==> runtime.desktop == old(runtime.desktop) && runtime.log == old(runtime.log)
    ensures r.Failure? && (r.error.SessionChanged? || r.error.UnsafeToStop?) ==> runtime.faults > old(runtime.faults)
    ensures old(runtime.log) <= runtime.log && runtime.faults >= old(runtime.faults)
    ensures old(runtime.confirmed) <= runtime.confirmed
    ensures r.Success? ==>
              var confirmed := runtime.confirmed[|old(runtime.confirmed)|..];
              (Connected, |old(runtime.log)|) in confirmed && (StillCurrent, |old(runtime.log)|) in confirmed
    ensures r.Success? ==>
              StopCarriedOut(r.value, outputs, old(runtime.desktop), runtime.desktop,
                    runtime.log[|old(runtime.log)|..], runtime.faults > old(runtime.faults))
  {
    if !ValidOutputs(outputs) {
      return Failure(InvalidSelection);
    }
    var recorded := store.SetOutputsStopped(outputs, true);
    if !recorded {
      return Failure(IntentNotRecorded);
    }
    var names := ObservedNames(known, outputs);
    ghost var first := runtime.confirmed;
    var groups := LookBeforeStop(runtime, outputs, names);
    if groups.Failure? {
      return Failure(groups.error);
    }
    ghost var looked := runtime.confirmed;
    var report := StopGroups(runtime, outputs, names, groups.value);
    MoreSince(first, looked, runtime.confirmed);
    return Success(report);
  }

  /** What has to be true before the first stop, and which renderers there are to stop. */
  method LookBeforeStop(runtime: Runtime, outputs: seq<string>, names: seq<string>)
      returns (r: Result<seq<Group>, StopError>)
    requires forall o :: o in outputs ==> o in names
    modifies runtime`faults, runtime`confirmed
    ensures old(runtime.confirmed) <= runtime.confirmed && runtime.faults >= old(runtime.faults)
    ensures r.Success? ==>
              var confirmed := runtime.confirmed[|old(runtime.confirmed)|..];
              && TrueGroups(r.value, outputs, runtime.desktop)
              && (Connected, |runtime.log|) in confirmed && (StillCurrent, |runtime.log|) in confirmed
    ensures r.Failure? ==>
              (r.error.SessionChanged? || r.error.UnsafeToStop?) && runtime.faults > old(runtime.faults)
  {
    ghost var first, n := runtime.confirmed, |runtime.log|;
    var topology := runtime.Check(Connected);
    if !topology {
      return Failure(SessionChanged);
    }
    var ownership := runtime.ObserveOwnership(names);
    var groups := GroupByOwner(outputs, ownership);
    if groups.Failure? {
      UnsafeMeansUncertain(outputs, names, ownership, runtime.desktop, groups.error.output);
      return Failure(groups.error);
    }
    ObservedGroupsAreTrue(groups.value, outputs, ownership, names, runtime.desktop);
    ghost var second := runtime.confirmed;
    var session := runtime.Check(StillCurrent);
    if !session {
      return Failure(SessionChanged);
    }
    AddedSince(first, first, (Connected, n), runtime.confirmed);
    AddedSince(first, second, (StillCurrent, n), runtime.confirmed);
    return Success(groups.value);
  }

  lemma UnsafeMeansUncertain(outputs: seq<string>, names: seq<string>, ownership: seq<(string, Ownership)>,
        desktop: Desktop, o: string)
    requires Observed(ownership, names, desktop) && o in names
    requires Owner(ownership, o).None? || Owner(ownership, o).value.Uncertain?
    ensures !Sure(ownership)
  {
    OwnerFound(ownership, o);
    var i :| 0 <= i < |ownership| && ownership[i] == (o, Owner(ownership, o).value);
  }

  /** Each output once, stopped only if vacant; done as a whole only if all are. */
  ghost predicate StopReported(report: Report, outputs: seq<string>, desktop: Desktop) {
    && |report.outputs| == |outputs|
    && (forall i :: 0 <= i < |outputs| ==>
          && report.outputs[i].output == outputs[i]
          && report.outputs[i].outcome in {Stopped, OutcomeUnknown}
          && (report.outputs[i].outcome.Stopped? ==> outputs[i] !in desktop))
    && report.outcome in {Stopped, Partial}
    && (report.outcome.Stopped? ==> forall i :: 0 <= i < |outputs| ==> report.outputs[i].outcome.Stopped?)
  }

  /** What a stop has started and reports; `failed` says whether anything failed on the way. */
  ghost predicate StopCarriedOut(report: Report, outputs: seq<string>, before: Desktop, now: Desktop,
        since: seq<ExecAction>, failed: bool) {
    && StopReported(report, outputs, now) && StopsOwners(since, outputs, before)
    && (!failed || report.outcome.Stopped? ==>
          forall o :: o in outputs && o in before ==> WasStopped(since, o, before))
    && (!failed ==> forall i :: 0 <= i < |outputs| ==> (report.outputs[i].outcome.Stopped? <==> outputs[i] !in now))
    && (report.outcome.Partial? && !failed ==>
          exists o :: o in outputs && o in now && WasStopped(since, o, before))
  }

  /** However far the stops got, each of them is the stop of one owner; all of them stop every owner. */
  lemma StartedStops(groups: seq<Group>, outputs: seq<string>, desktop: Desktop, since: seq<ExecAction>)
    requires TrueGroups(groups, outputs, desktop) && since <= StopActions(groups)
    ensures StopsOwners(since, outputs, desktop)
    ensures |since| == |groups| ==> forall o :: o in outputs && o in desktop ==> WasStopped(since, o, desktop)
  {
    forall k | 0 <= k < |since| ensures StopsOwner(since[k], outputs, desktop) {
      GroupStopsOwner(groups, outputs, desktop, k);
    }
    if |since| == |groups| {
      forall o | o in outputs && o in desktop ensures WasStopped(since, o, desktop) {
        EveryOwnerIsStopped(groups, outputs, desktop, o);
      }
    }
  }

  method StopGroups(runtime: Runtime, outputs: seq<string>, names: seq<string>, groups: seq<Group>)
      returns (report: Report)
    requires forall o :: o in outputs ==> o in names
    requires TrueGroups(groups, outputs, runtime.desktop)
    modifies runtime
    ensures forall o :: o !in outputs ==> Get(runtime.desktop, o) == Get(old(runtime.desktop), o)
    ensures old(runtime.log) <= runtime.log && runtime.faults >= old(runtime.faults)
    ensures old(runtime.confirmed) <= runtime.confirmed
    ensures StopCarriedOut(report, outputs, old(runtime.desktop), runtime.desktop,
              runtime.log[|old(runtime.log)|..], runtime.faults > old(runtime.faults))
  {
    var actions := StopActions(groups);
    var progress := ExecuteActions(runtime, actions);
    OnlySelectedTouched(groups, progress.attempted, outputs);
    ghost var since := actions[..|progress.attempted|];
    assert runtime.log[|old(runtime.log)|..] == since;
    StartedStops(groups, outputs, old(runtime.desktop), since);
    VacantStayVacant(actions, old(runtime.desktop), runtime.desktop);
    var after := runtime.ObserveOwnership(names);
    var results := ReportStopped(outputs, after, names, runtime.desktop);
    var complete := progress.ok && forall x :: x in results ==> x.outcome.Stopped?;
    report := Report(if complete then Stopped else Partial, results);
    ReportedIsCarriedOut(report, outputs, old(runtime.desktop), runtime.desktop, since, progress.ok, Sure(after),
          runtime.faults > old(runtime.faults));
  }

  /** Stops never start a renderer. */
  lemma VacantStayVacant(actions: seq<ExecAction>, before: Desktop, now: Desktop)
    requires forall a :: a in actions ==> a.ExecStop?
    requires forall o :: Spared(actions, before, o) ==> Get(now, o) == Get(before, o)
    ensures forall o :: o in now ==> o in before
  {
    forall o | o !in before ensures o !in now {
      assert Spared(actions, before, o);
      assert Get(now, o) == Get(before, o);
    }
  }

  lemma ReportedIsCarriedOut(report: Report, outputs: seq<string>, before: Desktop, now: Desktop,
        since: seq<ExecAction>, ok: bool, sure: bool, failed: bool)
    requires |report.outputs| == |outputs| && forall i :: 0 <= i < |outputs| ==>
               && report.outputs[i].output == outputs[i] && report.outputs[i].outcome in {Stopped, OutcomeUnknown}
               && (report.outputs[i].outcome.Stopped? ==> outputs[i] !in now)
               && (report.outputs[i].outcome.OutcomeUnknown? ==> outputs[i] in now || !sure)
    requires var complete := ok && forall x :: x in report.outputs ==> x.outcome.Stopped?;
             report.outcome == if complete then Stopped else Partial
    requires StopsOwners(since, outputs, before) && (!failed ==> ok && sure)
    requires ok ==> forall o :: o in outputs && o in before ==> WasStopped(since, o, before)
    requires forall o :: o in now ==> o in before
    ensures StopCarriedOut(report, outputs, before, now, since, failed)
  {
    if report.outcome.Partial? && !failed {
      var x :| x in report.outputs && !x.outcome.Stopped?;
      var i :| 0 <= i < |outputs| && report.outputs[i] == x;
      assert outputs[i] in outputs;
    }
    if report.outcome.Stopped? {
      assert forall i :: 0 <= i < |outputs| ==> report.outputs[i] in report.outputs;
    }
  }

  lemma OnlySelectedTouched(groups: seq<Group>, attempted: seq<(Backend, ExecutionScope)>, outputs: seq<string>)
    requires forall o, b :: Grouped(groups, o, b) ==> o in outputs
    requires |attempted| <= |groups|
    requires forall i :: 0 <= i < |attempted| ==> attempted[i] == (groups[i].backend, Named(groups[i].outputs))
    ensures forall o :: o !in outputs ==> !Touched(attempted, o)
  {
    forall o | o !in outputs ensures !Touched(attempted, o) {
      forall a | a in attempted ensures !InScope(a.1, o) {
        var i :| 0 <= i < |attempted| && attempted[i] == a;
        assert groups[i] in groups;
        assert !Grouped(groups, o, groups[i].backend);
      }
    }
  }
}
