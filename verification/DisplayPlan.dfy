/** The planner's loops, proved against the accepted plans and the reasons for refusal. */
module DisplayPlan {
  import opened Prelude
  import opened Capabilities
  import opened Renderers
  import opened Planner
  import PlannerTheorems

  method ValidateRequest(req: Request, ghost reg: Registry, ghost cap: Capability) returns (why: Option<Rejection>)
    ensures why.None? <==> WellFormed(req)
    ensures why.Some? ==> Blames(reg, cap, req, why.value)
  {
    why := ValidateKnown(req, reg, cap);
    if why.Some? { return; }
    why := ValidateRunning(req, reg, cap);
    if why.Some? { return; }
    match req.target {
      case Outputs(os) =>
        why := ValidateSelection(req, reg, cap);
      case Output(o) =>
        if IsBlank(o) { return Some(EmptyNamedOutput); }
        if o !in req.known { return Some(UnknownNamedOutput(o)); }
      case AllDisplays =>
        if req.known == [] { return Some(NoKnownOutputs); }
    }
  }

  method ValidateKnown(req: Request, ghost reg: Registry, ghost cap: Capability) returns (why: Option<Rejection>)
    ensures why.None? <==> ValidKnown(req.known)
    ensures why.Some? ==> Blames(reg, cap, req, why.value)
  {
    var seen: seq<string> := [];
    for i := 0 to |req.known|
      invariant seen == req.known[..i] && ValidKnown(seen)
    {
      var output := req.known[i];
      if IsBlank(output) {
        return Some(BlankKnownOutput(output));
      }
      if output in seen {
        assert OccursTwice(req.known, output);
        return Some(DuplicateKnownOutputs(output));
      }
      seen := seen + [output];
    }
    assert seen == req.known;
    return None;
  }

  method ValidateRunning(req: Request, ghost reg: Registry, ghost cap: Capability) returns (why: Option<Rejection>)
    ensures why.None? <==> ValidRunning(req.running, req.known)
    ensures why.Some? ==> Blames(reg, cap, req, why.value)
  {
    var seen: seq<RunningAssignment> := [];
    for i := 0 to |req.running|
      invariant seen == req.running[..i] && ValidRunning(seen, req.known)
    {
      var assignment := req.running[i];
      assert RunningAssignment(assignment.output, assignment.backend) in req.running;
      if IsBlank(assignment.output) {
        return Some(BlankRunningAssignmentOutput(assignment.output));
      }
      if assignment.output !in req.known {
        return Some(RunningAssignmentUnknownOutput(assignment.output));
      }
      var previous := Lookup(seen, assignment.output);
      if previous.Some? {
        var j :| 0 <= j < i && req.running[j] == RunningAssignment(assignment.output, previous.value);
        if previous.value == assignment.backend {
          assert OccursTwice(req.running, RunningAssignment(assignment.output, assignment.backend));
          return Some(DuplicateRunningAssignment(assignment.output));
        }
        return Some(ConflictingRunningAssignment(assignment.output));
      }
      seen := seen + [assignment];
    }
    assert seen == req.running;
    return None;
  }

  method ValidateSelection(req: Request, ghost reg: Registry, ghost cap: Capability) returns (why: Option<Rejection>)
    requires req.target.Outputs?
    ensures why.None? <==> ValidTarget(req.target, req.known)
    ensures why.Some? ==> Blames(reg, cap, req, why.value)
  {
    var outputs := req.target.names;
    if outputs == [] {
      return Some(NoKnownOutputs);
    }
    var seen: set<string> := {};
    for i := 0 to |outputs|
      invariant seen == set o | o in outputs[..i]
      invariant Distinct(outputs[..i]) && forall o :: o in outputs[..i] ==> !IsBlank(o) && o in req.known
    {
      var output := outputs[i];
      if IsBlank(output) {
        return Some(EmptyNamedOutput);
      }
      if output in seen {
        assert OccursTwice(outputs, output);
        return Some(DuplicateKnownOutputs(output));
      }
      seen := seen + {output};
      if output !in req.known {
        return Some(UnknownNamedOutput(output));
      }
      assert outputs[..i + 1] == outputs[..i] + [output];
    }
    assert outputs[..|outputs|] == outputs;
    return None;
  }

  /** Plans one named output of `req`, looking only at the assignments in `running`. */
  method PlanNamedOutput(req: Request, reg: Registry, cap: Capability, running: seq<RunningAssignment>, output: string)
    returns (r: Result<seq<PlannedAction>, Rejection>)
    requires cap.backend == req.backend && InTarget(req.target, output)
    requires forall a :: a in running ==> a in req.running && (a.output == output || !InTarget(req.target, a.output))
    ensures r.Success? <==> NamedPlan(reg, cap, running, output).Some?
    ensures r.Success? ==> r.value == NamedPlan(reg, cap, running, output).value
    ensures r.Failure? ==> Blames(reg, cap, req, r.error)
  {
    if !cap.VerifiedNamedOutputTargeting() {
      return Failure(UnverifiedTargetScope);
    }
    var actions: seq<PlannedAction> := [];
    var current := Lookup(running, output);
    if current.Some? {
      var b := current.value;
      assert RunningAssignment(output, b) in running;
      if b != cap.backend && reg.capabilityFor(b).None? {
        assert RunningAssignment(output, b).backend == b;
        return Failure(UnsupportedBackend);
      }
      if b != cap.backend || cap.RequiresStopBeforeSameTargetApply() {
        if DeclaredWide(reg, cap, b) {
          var other := FindElsewhere(running, output, b);
          if other.Some? {
            assert RunsOutsideTarget(req, other.value, b);
            return Failure(StopWouldAffectNonTarget(other.value));
          }
          actions := [StopBackend(b)];
        } else {
          actions := [Stop(b, [output])];
        }
      }
    }
    for i := 0 to |running|
      invariant forall j :: 0 <= j < i && running[j].output != output ==> !Conflicts(reg, cap, running[j].backend)
    {
      var other := running[i];
      if other.output != output {
        assert RunsOutsideTarget(req, other.output, other.backend);
        if other.backend != cap.backend {
          if reg.PairUnverified(cap.backend, other.backend) {
            return Failure(ReliesOnUnknownCoexistence);
          }
        } else {
          match cap.multiInstance {
            case SharedDaemon =>
            case SeparateProcessesVerified =>
              if cap.StopMayAffectNonTargetOutputs() { return Failure(StopWouldAffectNonTarget(other.output)); }
            case SeparateProcessesUnverified =>
              if cap.StopMayAffectNonTargetOutputs() { return Failure(StopWouldAffectNonTarget(other.output)); }
              return Failure(ReliesOnUnknownCoexistence);
            case OneShot =>
              return Failure(WouldAffectNonTargetDisplay(other.output));
            case SingleProcessUnverified =>
              return Failure(WouldAffectNonTargetDisplay(other.output));
          }
        }
      }
    }
    return Success(actions + ApplyActions(cap, [output]));
  }

  method FindElsewhere(running: seq<RunningAssignment>, output: string, b: Backend) returns (r: Option<string>)
    ensures r.Some? ==> r.value != output && RunningAssignment(r.value, b) in running
    ensures r.None? ==> forall a :: a in running && a.output != output ==> a.backend != b
  {
    for i := 0 to |running|
      invariant forall j :: 0 <= j < i && running[j].output != output ==> running[j].backend != b
    {
      if running[i].output != output && running[i].backend == b {
        return Some(running[i].output);
      }
    }
    return None;
  }

  method PlanOutputSet(req: Request, reg: Registry, cap: Capability) returns (r: Result<seq<PlannedAction>, Rejection>)
    requires cap.backend == req.backend && req.target.Outputs?
    ensures r.Success? <==> SetPlan(reg, cap, req.running, req.target.names).Some?
    ensures r.Success? ==> r.value == SetPlan(reg, cap, req.running, req.target.names).value
    ensures r.Failure? ==> Blames(reg, cap, req, r.error)
  {
    var outputs := req.target.names;
    if |outputs| > 1 && cap.allDisplays.OneProcessPerOutput? && !cap.multiInstance.SeparateProcessesVerified? {
      return Failure(ReliesOnUnknownCoexistence);
    }
    var parts := Separated([], []);
    for i := 0 to |outputs|
      invariant Accumulated(reg, cap, req.running, outputs, outputs[..i], parts)
    {
      var member := PlanMember(req, reg, cap, outputs[i]);
      if member.Failure? {
        RefusedByMember(reg, cap, req.running, outputs, outputs[i]);
        return Failure(member.error);
      }
      AccumulateNext(reg, cap, req.running, outputs, i, parts);
      parts := Separated(parts.stops + member.value.stops, parts.applies + member.value.applies);
    }
    Finish(reg, cap, req.running, outputs, parts);
    return Success(parts.stops + parts.applies);
  }

  datatype Separated = Separated(stops: seq<PlannedAction>, applies: seq<PlannedAction>)

  /** One member of a selection, planned against the assignments outside the selection. */
  method PlanMember(req: Request, reg: Registry, cap: Capability, output: string)
      returns (r: Result<Separated, Rejection>)
    requires cap.backend == req.backend && req.target.Outputs? && output in req.target.names
    ensures r.Success? <==> MemberAccepted(reg, cap, req.running, req.target.names, output)
    ensures r.Success? ==>
              var plan := MemberPlan(reg, cap, req.running, req.target.names, output).value;
              r.value == Separated(OnlyStops(plan), OnlyApplies(plan))
    ensures r.Failure? ==> Blames(reg, cap, req, r.error)
  {
    var scoped := Scoped(req.running, output, req.target.names);
    var member := PlanNamedOutput(req, reg, cap, scoped, output);
    if member.Failure? {
      return Failure(member.error);
    }
    var stops, applies, global := SplitMember(member.value);
    if global.Some? {
      WideStopIsDeclared(reg, cap, scoped, output, global.value);
      assert StopBackend(global.value).StopBackend? && RunsOnTarget(req, output, global.value);
      return Failure(UnverifiedTargetScope);
    }
    return Success(Separated(stops, applies));
  }

  /** Separates one member's actions; `global` is the first backend-wide stop among them. */
  method SplitMember(actions: seq<PlannedAction>)
      returns (stops: seq<PlannedAction>, applies: seq<PlannedAction>, global: Option<Backend>)
    ensures global.None? ==> stops == OnlyStops(actions) && applies == OnlyApplies(actions)
    ensures global.None? ==> forall a :: a in actions ==> !a.StopBackend?
    ensures global.Some? ==> StopBackend(global.value) in actions
  {
    stops, applies := [], [];
    for j := 0 to |actions|
      invariant stops == OnlyStops(actions[..j]) && applies == OnlyApplies(actions[..j])
      invariant forall a :: a in actions[..j] ==> !a.StopBackend?
    {
      ghost var one := [actions[j]];
      assert actions[..j + 1] == actions[..j] + one && one[1..] == [];
      PlannerTheorems.OnlyStopsConcat(actions[..j], one);
      match actions[j] {
        case Apply(_, _) => applies := applies + [actions[j]];
        case StopBackend(b) => return stops, applies, Some(b);
        case Stop(_, _) => stops := stops + [actions[j]];
      }
    }
    assert actions[..|actions|] == actions;
    return stops, applies, None;
  }

  lemma WideStopIsDeclared(reg: Registry, cap: Capability, running: seq<RunningAssignment>, output: string, b: Backend)
    requires NamedPlan(reg, cap, running, output).Some? && StopBackend(b) in NamedPlan(reg, cap, running, output).value
    ensures DeclaredWide(reg, cap, b) && RunningAssignment(output, b) in running
  {
    var stops := TargetStops(reg, cap, running, output).value;
    assert StopBackend(b) in stops || StopBackend(b) in ApplyActions(cap, [output]);
  }

  lemma {:induction false} MemberActionsSnoc(reg: Registry, cap: Capability, running: seq<RunningAssignment>,
        selected: seq<string>, outputs: seq<string>, o: string)
    requires forall x :: x in outputs ==> MemberAccepted(reg, cap, running, selected, x)
    requires MemberAccepted(reg, cap, running, selected, o)
    ensures MemberActions(reg, cap, running, selected, outputs + [o])
         == MemberActions(reg, cap, running, selected, outputs) + MemberPlan(reg, cap, running, selected, o).value
  {
    if outputs == [] {
      assert outputs + [o] == [o] && [o][1..] == [];
      assert MemberActions(reg, cap, running, selected, [o]) == MemberPlan(reg, cap, running, selected, o).value + [];
    } else {
      var more, rest := outputs + [o], outputs[1..];
      assert more[0] == outputs[0] && more[1..] == rest + [o];
      assert MemberAccepted(reg, cap, running, selected, outputs[0]);
      MemberActionsSnoc(reg, cap, running, selected, rest, o);
      var first, last := MemberPlan(reg, cap, running, selected, outputs[0]).value,
            MemberPlan(reg, cap, running, selected, o).value;
      assert MemberActions(reg, cap, running, selected, more)
          == first + (MemberActions(reg, cap, running, selected, rest) + last);
    }
  }

  ghost predicate Accumulated(reg: Registry, cap: Capability, running: seq<RunningAssignment>, selected: seq<string>,
        outputs: seq<string>, parts: Separated) {
    && (forall o :: o in outputs ==> MemberAccepted(reg, cap, running, selected, o))
    && parts.stops == OnlyStops(MemberActions(reg, cap, running, selected, outputs))
    && parts.applies == OnlyApplies(MemberActions(reg, cap, running, selected, outputs))
  }

  lemma Accumulate(reg: Registry, cap: Capability, running: seq<RunningAssignment>, selected: seq<string>,
        outputs: seq<string>, parts: Separated, o: string)
    requires Accumulated(reg, cap, running, selected, outputs, parts)
    requires MemberAccepted(reg, cap, running, selected, o)
    ensures var plan := MemberPlan(reg, cap, running, selected, o).value;
            Accumulated(reg, cap, running, selected, outputs + [o],
                  Separated(parts.stops + OnlyStops(plan), parts.applies + OnlyApplies(plan)))
  {
    var plan := MemberPlan(reg, cap, running, selected, o).value;
    MemberActionsSnoc(reg, cap, running, selected, outputs, o);
    PlannerTheorems.OnlyStopsConcat(MemberActions(reg, cap, running, selected, outputs), plan);
  }

  lemma AccumulateNext(reg: Registry, cap: Capability, running: seq<RunningAssignment>, selected: seq<string>, i: nat,
        parts: Separated)
    requires i < |selected| && Accumulated(reg, cap, running, selected, selected[..i], parts)
    requires MemberAccepted(reg, cap, running, selected, selected[i])
    ensures var plan := MemberPlan(reg, cap, running, selected, selected[i]).value;
            Accumulated(reg, cap, running, selected, selected[..i + 1],
                  Separated(parts.stops + OnlyStops(plan), parts.applies + OnlyApplies(plan)))
  {
    Accumulate(reg, cap, running, selected, selected[..i], parts, selected[i]);
    assert selected[..i + 1] == selected[..i] + [selected[i]];
  }

  lemma Finish(reg: Registry, cap: Capability, running: seq<RunningAssignment>, selected: seq<string>, parts: Separated)
    requires !NeedsUnverifiedInstances(cap, selected)
    requires Accumulated(reg, cap, running, selected, selected[..|selected|], parts)
    ensures SetPlan(reg, cap, running, selected) == Some(parts.stops + parts.applies)
  {
    assert selected[..|selected|] == selected;
  }

  lemma RefusedByMember(reg: Registry, cap: Capability, running: seq<RunningAssignment>, selected: seq<string>,
        o: string)
    requires o in selected && !MemberAccepted(reg, cap, running, selected, o)
    ensures SetPlan(reg, cap, running, selected).None?
  {
  }

  method ReplacementStopsForAllDisplays(running: seq<RunningAssignment>, cap: Capability)
      returns (stops: seq<PlannedAction>)
    ensures stops == ReplacementStops(cap, running)
  {
    stops := [];
    var stopped: seq<Backend> := [];
    for i := 0 to |running|
      invariant stopped == OtherBackends(running[..i], cap.backend)
      invariant stops == StopGroups(running, stopped)
    {
      var b := running[i].backend;
      assert running[..i + 1][..i] == running[..i];
      if b != cap.backend && b !in stopped {
        StopGroupsSnoc(running, stopped, b);
        stopped := stopped + [b];
        stops := stops + [Stop(b, OutputsOn(running, b))];
      }
    }
    assert running[..|running|] == running;
    if cap.sameTargetReplacement.StopThenApply? {
      var same := OutputsOn(running, cap.backend);
      if same != [] {
        stops := stops + [Stop(cap.backend, same)];
      }
    }
  }

  lemma {:induction false} StopGroupsSnoc(running: seq<RunningAssignment>, backends: seq<Backend>, b: Backend)
    ensures StopGroups(running, backends + [b]) == StopGroups(running, backends) + [Stop(b, OutputsOn(running, b))]
  {
    if backends == [] {
      assert backends + [b] == [b] && [b][1..] == [];
    } else {
      assert (backends + [b])[1..] == backends[1..] + [b];
      StopGroupsSnoc(running, backends[1..], b);
    }
  }

  /** The planner with an injected capability declaration. */
  method PlanWithCapability(req: Request, reg: Registry, cap: Capability)
      returns (r: Result<seq<PlannedAction>, Rejection>)
    ensures r.Success? <==> Plan(reg, cap, req).Some?
    ensures r.Success? ==> r.value == Plan(reg, cap, req).value
    ensures r.Failure? ==> Blames(reg, cap, req, r.error)
  {
    if cap.backend != req.backend {
      return Failure(UnsupportedBackend);
    }
    var why := ValidateRequest(req, reg, cap);
    if why.Some? {
      return Failure(why.value);
    }
    match req.target {
      case AllDisplays =>
        if NeedsUnverifiedInstances(cap, req.known) {
          return Failure(ReliesOnUnknownCoexistence);
        }
        var stops := ReplacementStopsForAllDisplays(req.running, cap);
        return Success(stops + ApplyActions(cap, req.known));
      case Output(o) =>
        r := PlanNamedOutput(req, reg, cap, req.running, o);
      case Outputs(os) =>
        r := PlanOutputSet(req, reg, cap);
    }
  }

  method PlanDisplayApply(req: Request, reg: Registry) returns (r: Result<seq<PlannedAction>, Rejection>)
    ensures r.Success? <==>
              reg.capabilityFor(req.backend).Some? && Plan(reg, reg.capabilityFor(req.backend).value, req).Some?
    ensures r.Success? ==> r.value == Plan(reg, reg.capabilityFor(req.backend).value, req).value
    ensures r.Failure? ==>
              if reg.capabilityFor(req.backend).None? then r.error == UnsupportedBackend
              else Blames(reg, reg.capabilityFor(req.backend).value, req, r.error)
  {
    match reg.capabilityFor(req.backend)
    case None => return Failure(UnsupportedBackend);
    case Some(cap) => r := PlanWithCapability(req, reg, cap);
  }
}
