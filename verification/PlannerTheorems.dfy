/** What an accepted plan does to the desktop it was planned for. */
module PlannerTheorems {
  import opened Prelude
  import opened Capabilities
  import opened Renderers
  import opened Planner

  /** A desktop that behaves no worse than the registry and the requested capability declare. */
  ghost predicate Honest(p: Physics, reg: Registry, cap: Capability) {
    && (forall b :: p.wide(b) && (b == cap.backend || reg.capabilityFor(b).Some?) ==> DeclaredWide(reg, cap, b))
    && (forall b :: b != cap.backend && p.disturbs(cap.backend, b) ==> reg.PairUnverified(cap.backend, b))
    && (p.disturbs(cap.backend, cap.backend) ==> !cap.InstancesCoexist())
  }

  /** No stop follows a start. */
  ghost predicate StopsFirst(actions: seq<PlannedAction>) {
    forall i, j :: 0 <= i < j < |actions| && actions[i].Apply? ==> actions[j].Apply?
  }

  /** The outputs started, in order, with repetitions. */
  function Applied(actions: seq<PlannedAction>): seq<string> {
    if actions == [] then []
    else (if actions[0].Apply? then actions[0].outputs else []) + Applied(actions[1..])
  }

  lemma {:induction false} AppliedConcat(a: seq<PlannedAction>, b: seq<PlannedAction>)
    ensures Applied(a + b) == Applied(a) + Applied(b)
  {
    if a == [] {
      assert a + b == b;
    } else {
      assert (a + b)[1..] == a[1..] + b;
      AppliedConcat(a[1..], b);
    }
  }

  lemma {:induction false} AppliedGroups(b: Backend, groups: seq<seq<string>>)
    ensures Applied(ApplyGroups(b, groups)) == Flatten(groups)
  {
    if groups != [] {
      assert ApplyGroups(b, groups)[1..] == ApplyGroups(b, groups[1..]);
      AppliedGroups(b, groups[1..]);
    }
  }

  lemma {:induction false} NothingApplied(stops: seq<PlannedAction>)
    requires forall a :: a in stops ==> !a.Apply?
    ensures Applied(stops) == []
  {
    if stops != [] {
      assert !stops[0].Apply?;
      NothingApplied(stops[1..]);
    }
  }

  /** Stops then grouped starts: the order and the outputs started. */
  lemma StopsThenApplies(stops: seq<PlannedAction>, cap: Capability, outputs: seq<string>)
    requires forall a :: a in stops ==> !a.Apply?
    ensures StopsFirst(stops + ApplyActions(cap, outputs))
    ensures Applied(stops + ApplyActions(cap, outputs)) == outputs
  {
    AppliedConcat(stops, ApplyActions(cap, outputs));
    NothingApplied(stops);
    AppliedGroups(cap.backend, ApplyOutputGroups(cap.allDisplays, outputs));
  }

  lemma SingleGroup(cap: Capability, o: string)
    ensures ApplyActions(cap, [o]) == [Apply(cap.backend, [o])]
  {
    var groups := ApplyOutputGroups(cap.allDisplays, [o]);
    if cap.allDisplays.OneProcessPerOutput? {
      assert [o][1..] == [];
      assert ApplyOutputGroups(cap.allDisplays, []) == [];
    }
    assert groups == [[o]];
  }

  lemma {:induction false} LookupUnique(running: seq<RunningAssignment>, a: RunningAssignment)
    requires UniqueOutputs(running) && a in running
    ensures Lookup(running, a.output) == Some(a.backend)
  {
    if running[0] != a {
      var k :| 0 <= k < |running| && running[k] == a;
      assert running[1..][k - 1] == a;
      LookupUnique(running[1..], a);
    }
  }

  // ---------------------------------------------------------------- one named output

  lemma InWorld(running: seq<RunningAssignment>, o: string)
    ensures o in AsWorld(running) <==> Lookup(running, o).Some?
    ensures o in AsWorld(running) ==>
              RunningAssignment(o, AsWorld(running)[o]) in running && Lookup(running, o) == Some(AsWorld(running)[o])
  {
  }

  lemma RunOne(p: Physics, w: World, a: PlannedAction)
    ensures Run(p, w, [a]) == Step(p, w, a)
  {
    assert [a][1..] == [];
  }

  lemma NoConflictNoDisturbance(p: Physics, reg: Registry, cap: Capability, other: Backend)
    requires Honest(p, reg, cap) && !Conflicts(reg, cap, other)
    ensures !p.disturbs(cap.backend, other)
  {
  }

  /** The permitted stops of a target leave every other output as it was. */
  lemma TargetStopsFree(p: Physics, reg: Registry, cap: Capability, running: seq<RunningAssignment>, o: string)
    requires Honest(p, reg, cap) && TargetStops(reg, cap, running, o).Some?
    ensures var w1 := Run(p, AsWorld(running), TargetStops(reg, cap, running, o).value);
            && (forall x :: x != o ==> Get(w1, x) == Get(AsWorld(running), x))
            && (o in w1 ==> w1[o] == cap.backend)
  {
    var w, stops := AsWorld(running), TargetStops(reg, cap, running, o).value;
    InWorld(running, o);
    if stops != [] {
      var current := w[o];
      assert stops == [stops[0]];
      RunOne(p, w, stops[0]);
      if stops[0].StopBackend? {
        forall x | x != o ensures Get(Without(w, current), x) == Get(w, x) {
          InWorld(running, x);
        }
      } else {
        assert !p.wide(current);
      }
    }
  }

  lemma ApplyOnTarget(p: Physics, w: World, b: Backend, o: string)
    requires forall x :: x in w && x != o ==> !p.disturbs(b, w[x])
    ensures Step(p, w, Apply(b, [o])) == w[o := b]
  {
  }

  /**
   * Whatever else runs, an accepted named plan moves exactly its target: the world afterwards is the
   * world before with the target on the requested backend.
   */
  lemma NamedPlanMovesOnlyItsTarget(p: Physics, reg: Registry, cap: Capability, running: seq<RunningAssignment>,
        o: string)
    requires Honest(p, reg, cap)
    requires NamedPlan(reg, cap, running, o).Some?
    ensures var plan := NamedPlan(reg, cap, running, o).value;
            && Run(p, AsWorld(running), plan) == AsWorld(running)[o := cap.backend]
            && StopsFirst(plan) && Applied(plan) == [o]
  {
    var w := AsWorld(running);
    var stops := TargetStops(reg, cap, running, o).value;
    StopsThenApplies(stops, cap, [o]);
    SingleGroup(cap, o);
    var apply := Apply(cap.backend, [o]);
    RunConcat(p, w, stops, [apply]);
    TargetStopsFree(p, reg, cap, running, o);
    var w1 := Run(p, w, stops);
    RunOne(p, w1, apply);
    forall x | x in w1 && x != o ensures !p.disturbs(cap.backend, w1[x]) {
      assert Get(w1, x) == Get(w, x);
      InWorld(running, x);
      NoConflictNoDisturbance(p, reg, cap, w[x]);
    }
    ApplyOnTarget(p, w1, cap.backend, o);
    SameOnceUpdated(w1, w, o, cap.backend);
  }

  lemma SameOnceUpdated(w: World, v: World, o: string, b: Backend)
    requires forall x :: x != o ==> Get(w, x) == Get(v, x)
    ensures w[o := b] == v[o := b]
  {
    forall x | x != o ensures x in w <==> x in v {
      assert Get(w, x) == Get(v, x);
    }
    forall x | x != o && x in w ensures w[x] == v[x] {
      assert Get(w, x) == Get(v, x);
    }
  }

  lemma SameWorld(w: World, v: World)
    requires forall x :: Get(w, x) == Get(v, x)
    ensures w == v
  {
    forall x ensures x in w <==> x in v {
      assert Get(w, x) == Get(v, x);
    }
    forall x | x in w ensures w[x] == v[x] {
      assert Get(w, x) == Get(v, x);
    }
  }

  // ---------------------------------------------------------------- an explicit set

  /** Applying the members one by one to a set of outputs. */
  lemma MemberPlanShape(reg: Registry, cap: Capability, running: seq<RunningAssignment>, selected: seq<string>,
        o: string)
    requires MemberAccepted(reg, cap, running, selected, o)
    ensures MemberPlan(reg, cap, running, selected, o)
            == Some(MemberStops(reg, cap, running, selected, o) + [Apply(cap.backend, [o])])
  {
    SingleGroup(cap, o);
  }

  function MemberStops(reg: Registry, cap: Capability, running: seq<RunningAssignment>, selected: seq<string>,
        o: string): (stops: seq<PlannedAction>)
    requires MemberAccepted(reg, cap, running, selected, o)
  {
    TargetStops(reg, cap, Scoped(running, o, selected), o).value
  }

  function AllMemberStops(reg: Registry, cap: Capability, running: seq<RunningAssignment>, selected: seq<string>,
        outputs: seq<string>): seq<PlannedAction>
    requires forall o :: o in outputs ==> MemberAccepted(reg, cap, running, selected, o)
  {
    if outputs == [] then []
    else
      assert MemberAccepted(reg, cap, running, selected, outputs[0]);
      MemberStops(reg, cap, running, selected, outputs[0]) + AllMemberStops(reg, cap, running, selected, outputs[1..])
  }

  lemma {:induction false} OnlyStopsAreStops(actions: seq<PlannedAction>)
    ensures forall a :: a in OnlyStops(actions) ==> !a.Apply?
  {
    if actions != [] {
      OnlyStopsAreStops(actions[1..]);
    }
  }

  lemma {:induction false} OnlyStopsConcat(a: seq<PlannedAction>, b: seq<PlannedAction>)
    ensures OnlyStops(a + b) == OnlyStops(a) + OnlyStops(b)
    ensures OnlyApplies(a + b) == OnlyApplies(a) + OnlyApplies(b)
  {
    if a == [] {
      assert a + b == b;
    } else {
      var rest := a[1..];
      assert (a + b)[0] == a[0] && (a + b)[1..] == rest + b;
      OnlyStopsConcat(rest, b);
      if a[0].Apply? {
        assert [a[0]] + (OnlyApplies(rest) + OnlyApplies(b)) == ([a[0]] + OnlyApplies(rest)) + OnlyApplies(b);
      } else {
        assert [a[0]] + (OnlyStops(rest) + OnlyStops(b)) == ([a[0]] + OnlyStops(rest)) + OnlyStops(b);
      }
    }
  }

  lemma {:induction false} OnlyStopsOfStops(stops: seq<PlannedAction>)
    requires forall a :: a in stops ==> !a.Apply?
    ensures OnlyStops(stops) == stops && OnlyApplies(stops) == []
  {
    if stops != [] {
      assert !stops[0].Apply?;
      OnlyStopsOfStops(stops[1..]);
    }
  }

  /** The members' actions separate into their stops and one start per member. */
  lemma {:induction false} MemberActionsSeparate(reg: Registry, cap: Capability, running: seq<RunningAssignment>,
        selected: seq<string>, outputs: seq<string>)
    requires forall o :: o in outputs ==> MemberAccepted(reg, cap, running, selected, o)
    ensures OnlyStops(MemberActions(reg, cap, running, selected, outputs))
            == AllMemberStops(reg, cap, running, selected, outputs)
    ensures OnlyApplies(MemberActions(reg, cap, running, selected, outputs)) == ApplyEach(cap.backend, outputs)
  {
    if outputs != [] {
      var o := outputs[0];
      assert MemberAccepted(reg, cap, running, selected, o);
      MemberPlanShape(reg, cap, running, selected, o);
      var stops, start := MemberStops(reg, cap, running, selected, o), [Apply(cap.backend, [o])];
      OnlyStopsConcat(stops + start, MemberActions(reg, cap, running, selected, outputs[1..]));
      OnlyStopsConcat(stops, start);
      OnlyStopsOfStops(stops);
      assert start[1..] == [];
      MemberActionsSeparate(reg, cap, running, selected, outputs[1..]);
    }
  }

  lemma {:induction false} ScopedKeepsTarget(running: seq<RunningAssignment>, o: string, selected: seq<string>)
    ensures Lookup(Scoped(running, o, selected), o) == Lookup(running, o)
  {
    if running != [] {
      ScopedKeepsTarget(running[1..], o, selected);
    }
  }

  lemma MemberStopsShape(reg: Registry, cap: Capability, running: seq<RunningAssignment>, selected: seq<string>,
        o: string)
    requires MemberAccepted(reg, cap, running, selected, o)
    ensures var stops := MemberStops(reg, cap, running, selected, o);
            match Lookup(running, o)
            case None => stops == []
            case Some(current) =>
              || (stops == [] && current == cap.backend)
              || (stops == [Stop(current, [o])] && !DeclaredWide(reg, cap, current)
                  && (current == cap.backend || reg.capabilityFor(current).Some?))
  {
    ScopedKeepsTarget(running, o, selected);
    var stops := MemberStops(reg, cap, running, selected, o);
    if stops != [] {
      assert (stops + ApplyActions(cap, [o]))[0] == stops[0];
      assert stops[0] in MemberPlan(reg, cap, running, selected, o).value;
    }
  }

  lemma OneMemberFree(p: Physics, reg: Registry, cap: Capability, running: seq<RunningAssignment>,
        selected: seq<string>, o: string, w: World)
    requires Honest(p, reg, cap) && MemberAccepted(reg, cap, running, selected, o)
    requires o in w ==> w[o] == cap.backend || Lookup(running, o) == Some(w[o])
    ensures var w1 := Run(p, w, MemberStops(reg, cap, running, selected, o));
            && (forall x :: x != o ==> Get(w1, x) == Get(w, x))
            && (o in w1 ==> w1[o] == cap.backend)
  {
    MemberStopsShape(reg, cap, running, selected, o);
    var stops := MemberStops(reg, cap, running, selected, o);
    if stops != [] {
      assert !p.wide(stops[0].backend);
      RunOne(p, w, stops[0]);
    }
  }

  /** The stops of all members free the selected outputs and touch nothing else. */
  lemma {:induction false} MemberStopsFree(p: Physics, reg: Registry, cap: Capability, running: seq<RunningAssignment>,
        selected: seq<string>, outputs: seq<string>, w: World)
    requires Honest(p, reg, cap)
    requires forall o :: o in outputs ==> MemberAccepted(reg, cap, running, selected, o)
    requires forall o :: o in outputs && o in w ==> w[o] == cap.backend || Lookup(running, o) == Some(w[o])
    ensures var w1 := Run(p, w, AllMemberStops(reg, cap, running, selected, outputs));
            && (forall o :: o !in outputs ==> Get(w1, o) == Get(w, o))
            && (forall o :: o in outputs && o in w1 ==> w1[o] == cap.backend)
    decreases |outputs|
  {
    if outputs != [] {
      var o := outputs[0];
      assert MemberAccepted(reg, cap, running, selected, o);
      var stops := MemberStops(reg, cap, running, selected, o);
      RunConcat(p, w, stops, AllMemberStops(reg, cap, running, selected, outputs[1..]));
      var w1 := Run(p, w, stops);
      OneMemberFree(p, reg, cap, running, selected, o, w);
      forall x | x in outputs[1..] && x in w1 ensures w1[x] == cap.backend || Lookup(running, x) == Some(w1[x]) {
        assert x != o ==> Get(w1, x) == Get(w, x);
      }
      MemberStopsFree(p, reg, cap, running, selected, outputs[1..], w1);
      var w2 := Run(p, w1, AllMemberStops(reg, cap, running, selected, outputs[1..]));
      forall x | x in outputs && x in w2 ensures w2[x] == cap.backend {
        if x !in outputs[1..] {
          assert x == o && Get(w2, x) == Get(w1, x);
        }
      }
      forall x | x !in outputs ensures Get(w2, x) == Get(w, x) {
        assert x !in outputs[1..] && Get(w2, x) == Get(w1, x);
      }
    }
  }

  /** No accepted member plan lets the requested backend disturb an unselected output. */
  lemma UnselectedUndisturbed(p: Physics, reg: Registry, cap: Capability, running: seq<RunningAssignment>,
        selected: seq<string>, member: string, o: string)
    requires Honest(p, reg, cap) && MemberAccepted(reg, cap, running, selected, member)
    requires member in selected && o in AsWorld(running) && o !in selected
    ensures !p.disturbs(cap.backend, AsWorld(running)[o])
  {
    InWorld(running, o);
    assert RunningAssignment(o, AsWorld(running)[o]) in Scoped(running, member, selected);
    NoConflictNoDisturbance(p, reg, cap, AsWorld(running)[o]);
  }

  lemma SetPlanShape(reg: Registry, cap: Capability, running: seq<RunningAssignment>, selected: seq<string>)
    requires SetPlan(reg, cap, running, selected).Some?
    ensures forall o :: o in selected ==> MemberAccepted(reg, cap, running, selected, o)
    ensures SetPlan(reg, cap, running, selected).value
         == AllMemberStops(reg, cap, running, selected, selected) + ApplyEach(cap.backend, selected)
    ensures forall a :: a in AllMemberStops(reg, cap, running, selected, selected) ==> !a.Apply?
  {
    MemberActionsSeparate(reg, cap, running, selected, selected);
    OnlyStopsAreStops(MemberActions(reg, cap, running, selected, selected));
  }

  /**
   * An accepted set plan never touches an unselected output. It puts the requested backend on every
   * selected output exactly when one instance of that backend does not disturb another, or when the
   * set has a single member: the planner refuses other shapes only for process-per-output backends.
   */
  lemma SetPlanMovesOnlyItsTargets(p: Physics, reg: Registry, cap: Capability, running: seq<RunningAssignment>,
        selected: seq<string>)
    requires Honest(p, reg, cap) && Distinct(selected) && selected != []
    requires SetPlan(reg, cap, running, selected).Some?
    ensures var plan := SetPlan(reg, cap, running, selected).value;
            var after := Run(p, AsWorld(running), plan);
            && StopsFirst(plan) && Applied(plan) == selected
            && (forall o :: o !in selected ==> Get(after, o) == Get(AsWorld(running), o))
            && (after == Covered(AsWorld(running), selected, cap.backend)
                <==> |selected| == 1 || !p.disturbs(cap.backend, cap.backend))
  {
    var w, b := AsWorld(running), cap.backend;
    SetPlanShape(reg, cap, running, selected);
    var stops := AllMemberStops(reg, cap, running, selected, selected);
    AppliedConcat(stops, ApplyEach(b, selected));
    NothingApplied(stops);
    AppliedEach(b, selected);
    RunConcat(p, w, stops, ApplyEach(b, selected));
    forall o | o in selected && o in w ensures Lookup(running, o) == Some(w[o]) {
      InWorld(running, o);
    }
    MemberStopsFree(p, reg, cap, running, selected, selected, w);
    var w1 := Run(p, w, stops);
    forall o | o in w1 && o !in selected ensures !p.disturbs(b, w1[o]) {
      assert Get(w1, o) == Get(w, o);
      UnselectedUndisturbed(p, reg, cap, running, selected, selected[0], o);
    }
    ApplyEachFrame(p, w1, b, selected, selected);
    SetCoverage(p, w, w1, b, selected);
  }

  lemma SetCoverage(p: Physics, w: World, w1: World, b: Backend, selected: seq<string>)
    requires Distinct(selected) && selected != []
    requires forall o :: o !in selected ==> Get(w1, o) == Get(w, o)
    requires forall o :: o !in selected ==> Get(Run(p, w1, ApplyEach(b, selected)), o) == Get(w1, o)
    ensures Run(p, w1, ApplyEach(b, selected)) == Covered(w, selected, b) <==> |selected| == 1 || !p.disturbs(b, b)
  {
    var after := Run(p, w1, ApplyEach(b, selected));
    if |selected| == 1 || !p.disturbs(b, b) {
      ApplyEachCovers(p, w1, b, selected);
      forall x ensures Get(after, x) == Get(Covered(w, selected, b), x) {
        assert x !in selected ==> Get(after, x) == Get(w1, x) == Get(w, x);
      }
      SameWorld(after, Covered(w, selected, b));
    } else {
      ApplyEachLosesFirst(p, w1, b, selected);
      assert selected[0] in Covered(w, selected, b);
    }
  }

  lemma {:induction false} AppliedEach(b: Backend, outputs: seq<string>)
    ensures Applied(ApplyEach(b, outputs)) == outputs
  {
    if outputs != [] {
      assert ApplyEach(b, outputs)[1..] == ApplyEach(b, outputs[1..]);
      AppliedEach(b, outputs[1..]);
    }
  }

  /** Starting members of `all` one by one leaves the outputs outside `all` alone. */
  lemma {:induction false} ApplyEachFrame(p: Physics, w: World, b: Backend, outputs: seq<string>, all: seq<string>)
    requires forall o :: o in outputs ==> o in all
    requires forall o :: o in w && o !in all ==> !p.disturbs(b, w[o])
    ensures forall o :: o !in all ==> Get(Run(p, w, ApplyEach(b, outputs)), o) == Get(w, o)
    decreases |outputs|
  {
    if outputs != [] {
      var w1 := Step(p, w, Apply(b, [outputs[0]]));
      assert ApplyEach(b, outputs)[1..] == ApplyEach(b, outputs[1..]);
      assert outputs[0] in all;
      assert forall o :: o !in all ==> Get(w1, o) == Get(w, o);
      ApplyEachFrame(p, w1, b, outputs[1..], all);
    }
  }

  /**
   * A one-element set is planned like the named output, except that a plan holding a backend-wide
   * stop is refused.
   */
  lemma SingletonSetIsTheNamedPlan(reg: Registry, cap: Capability, running: seq<RunningAssignment>, o: string)
    ensures var named := NamedPlan(reg, cap, running, o);
            SetPlan(reg, cap, running, [o])
            == (if named.Some? && exists a :: a in named.value && a.StopBackend? then None else named)
  {
    ScopedToOne(running, o);
    var named := NamedPlan(reg, cap, running, o);
    if MemberAccepted(reg, cap, running, [o], o) {
      var stops := TargetStops(reg, cap, running, o).value;
      SingleGroup(cap, o);
      OnlyStopsConcat(stops, [Apply(cap.backend, [o])]);
      OnlyStopsOfStops(stops);
      var start := [Apply(cap.backend, [o])];
      assert start[1..] == [] && OnlyApplies(start) == start && OnlyStops(start) == [];
      assert [o][1..] == [];
      assert MemberActions(reg, cap, running, [o], [o]) == stops + start;
    }
  }

  lemma {:induction false} ScopedToOne(running: seq<RunningAssignment>, o: string)
    ensures Scoped(running, o, [o]) == running
  {
    if running != [] {
      ScopedToOne(running[1..], o);
    }
  }

  // ---------------------------------------------------------------- all displays

  /** Every known output ends on the requested backend, whatever was on it before. */
  lemma AllPlanCoversEverything(p: Physics, reg: Registry, cap: Capability, running: seq<RunningAssignment>,
        known: seq<string>, w: World)
    requires Honest(p, reg, cap) && AllPlan(cap, running, known).Some?
    requires forall o :: o in w ==> o in known
    ensures var plan := AllPlan(cap, running, known).value;
            && Run(p, w, plan) == (map o | o in known :: cap.backend)
            && StopsFirst(plan) && Applied(plan) == known
  {
    var stops := ReplacementStops(cap, running);
    StopsThenApplies(stops, cap, known);
    RunConcat(p, w, stops, ApplyActions(cap, known));
    StopsOnlyShrink(p, w, stops);
    ApplyActionsCover(p, reg, cap, Run(p, w, stops), known);
  }

  lemma CoversKnown(after: World, known: seq<string>, b: Backend)
    requires forall o :: o in known ==> Get(after, o) == Some(b)
    requires forall o :: o in after ==> o in known
    ensures after == map o | o in known :: b
  {
    forall o | o in known ensures o in after && after[o] == b {
      assert Get(after, o) == Some(b);
    }
  }

  lemma ApplyEachCoversAll(p: Physics, w: World, b: Backend, known: seq<string>)
    requires |known| <= 1 || !p.disturbs(b, b)
    requires forall o :: o in w ==> o in known
    ensures Run(p, w, ApplyEach(b, known)) == (map o | o in known :: b)
  {
    ApplyEachCovers(p, w, b, known);
    CoversKnown(Run(p, w, ApplyEach(b, known)), known, b);
  }

  /** Starting the requested backend on all known outputs, in the groups its capability asks for. */
  lemma ApplyActionsCover(p: Physics, reg: Registry, cap: Capability, w: World, known: seq<string>)
    requires Honest(p, reg, cap) && !NeedsUnverifiedInstances(cap, known)
    requires forall o :: o in w ==> o in known
    ensures Run(p, w, ApplyActions(cap, known)) == (map o | o in known :: cap.backend)
  {
    var b := cap.backend;
    if cap.allDisplays.OneProcessPerOutput? {
      ApplyActionsAreSingles(cap, known);
      ApplyEachCoversAll(p, w, b, known);
    } else if known != [] {
      assert [known][1..] == [];
      RunOne(p, w, Apply(b, known));
      assert ApplyActions(cap, known) == [Apply(b, known)];
    }
  }

  lemma {:induction false} ApplyActionsAreSingles(cap: Capability, outputs: seq<string>)
    requires cap.allDisplays.OneProcessPerOutput?
    ensures ApplyActions(cap, outputs) == ApplyEach(cap.backend, outputs)
  {
    if outputs != [] {
      ApplyActionsAreSingles(cap, outputs[1..]);
      var rest := ApplyOutputGroups(cap.allDisplays, outputs[1..]);
      assert ([[outputs[0]]] + rest)[1..] == rest;
    }
  }

  lemma {:induction false} OtherBackendsAreThose(running: seq<RunningAssignment>, b: Backend)
    ensures Distinct(OtherBackends(running, b)) && b !in OtherBackends(running, b)
    ensures forall x :: x in OtherBackends(running, b) <==> x != b && exists a :: a in running && a.backend == x
  {
    if running != [] {
      var before, last := running[..|running| - 1], running[|running| - 1];
      OtherBackendsAreThose(before, b);
      assert running == before + [last];
      assert forall a :: a in running <==> a in before || a == last;
    }
  }

  lemma {:induction false} OutputsOnDistinct(running: seq<RunningAssignment>, b: Backend)
    requires UniqueOutputs(running)
    ensures Distinct(OutputsOn(running, b))
  {
    if running != [] {
      OutputsOnDistinct(running[1..], b);
      assert forall a :: a in running[1..] ==> a.output != running[0].output;
    }
  }

  /** Every stop group is what runs on its backend. */
  lemma ReplacementGroups(cap: Capability, running: seq<RunningAssignment>)
    requires UniqueOutputs(running)
    ensures var stops, others := ReplacementStops(cap, running), OtherBackends(running, cap.backend);
            && |others| <= |stops| <= |others| + 1
            && (forall i :: 0 <= i < |others| ==> stops[i].backend == others[i])
            && (|stops| == |others| + 1
                <==> cap.sameTargetReplacement.StopThenApply? && OutputsOn(running, cap.backend) != [])
            && (|stops| == |others| + 1 ==> stops[|others|].backend == cap.backend)
            && (forall i :: 0 <= i < |stops| ==>
                  stops[i].Stop? && stops[i].outputs == OutputsOn(running, stops[i].backend) && stops[i].outputs != []
                      && Distinct(stops[i].outputs))
  {
    var stops, others := ReplacementStops(cap, running), OtherBackends(running, cap.backend);
    OtherBackendsAreThose(running, cap.backend);
    forall i | 0 <= i < |stops|
      ensures stops[i].Stop? && stops[i].outputs == OutputsOn(running, stops[i].backend) && stops[i].outputs != []
              && Distinct(stops[i].outputs)
    {
      OutputsOnDistinct(running, stops[i].backend);
      if i < |others| {
        assert others[i] in others;
        var a :| a in running && a.backend == others[i];
        assert a.output in OutputsOn(running, others[i]);
      }
    }
  }

  lemma OutputsOnDisjoint(running: seq<RunningAssignment>, b: Backend, c: Backend, o: string)
    requires UniqueOutputs(running) && b != c
    ensures !(o in OutputsOn(running, b) && o in OutputsOn(running, c))
  {
    if o in OutputsOn(running, b) && o in OutputsOn(running, c) {
      LookupUnique(running, RunningAssignment(o, b));
      LookupUnique(running, RunningAssignment(o, c));
    }
  }

  lemma GroupOf(cap: Capability, running: seq<RunningAssignment>, o: string, b: Backend)
    requires UniqueOutputs(running) && RunningAssignment(o, b) in running
    requires b != cap.backend || cap.sameTargetReplacement.StopThenApply?
    ensures var stops := ReplacementStops(cap, running);
            exists i :: 0 <= i < |stops| && stops[i].backend == b && stops[i].Stop? && o in stops[i].outputs
  {
    var stops, others := ReplacementStops(cap, running), OtherBackends(running, cap.backend);
    ReplacementGroups(cap, running);
    OtherBackendsAreThose(running, cap.backend);
    var a := RunningAssignment(o, b);
    assert a in running && a.backend == b;
    assert o in OutputsOn(running, b);
    if b != cap.backend {
      assert b in others;
      var i :| 0 <= i < |others| && others[i] == b;
      assert stops[i].backend == b;
    } else {
      assert stops[|others|].backend == b;
    }
  }

  /**
   * The All Displays stops are a partition: one nonempty group per backend, no output in two groups,
   * and together exactly the outputs on other backends, plus those already on the requested backend
   * when that backend must stop before it starts again.
   */
  lemma ReplacementStopsPartition(cap: Capability, running: seq<RunningAssignment>)
    requires UniqueOutputs(running)
    ensures var stops := ReplacementStops(cap, running);
            && (forall i :: 0 <= i < |stops| ==> stops[i].Stop? && stops[i].outputs != [] && Distinct(stops[i].outputs))
            && (forall i, j, o :: 0 <= i < j < |stops| ==>
                  stops[i].backend != stops[j].backend && !(o in stops[i].outputs && o in stops[j].outputs))
            && (forall o, b :: (exists i :: 0 <= i < |stops| && stops[i].backend == b && o in stops[i].outputs)
                  <==> RunningAssignment(o, b) in running
                       && (b != cap.backend || cap.sameTargetReplacement.StopThenApply?))
  {
    var stops, others := ReplacementStops(cap, running), OtherBackends(running, cap.backend);
    ReplacementGroups(cap, running);
    OtherBackendsAreThose(running, cap.backend);
    forall i, j, o | 0 <= i < j < |stops|
      ensures stops[i].backend != stops[j].backend && !(o in stops[i].outputs && o in stops[j].outputs)
    {
      assert i < |others| && others[i] in others;
      OutputsOnDisjoint(running, stops[i].backend, stops[j].backend, o);
    }
    forall o, b | RunningAssignment(o, b) in running && (b != cap.backend || cap.sameTargetReplacement.StopThenApply?)
      ensures exists i :: 0 <= i < |stops| && stops[i].backend == b && o in stops[i].outputs
    {
      GroupOf(cap, running, o, b);
    }
    forall i, o | 0 <= i < |stops| && o in stops[i].outputs
      ensures RunningAssignment(o, stops[i].backend) in running
              && (stops[i].backend != cap.backend || cap.sameTargetReplacement.StopThenApply?)
    {
      assert i < |others| ==> others[i] in others;
    }
  }
}
