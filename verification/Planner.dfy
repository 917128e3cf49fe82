/** The side-effect-free planner: which stops and starts one display request needs, or why it is refused. */
module Planner {
  import opened Prelude
  import opened Capabilities
  import opened Renderers

  datatype DisplayTarget = Output(name: string) | Outputs(names: seq<string>) | AllDisplays

  datatype RunningAssignment = RunningAssignment(output: string, backend: Backend)

  datatype Request = Request(
    target: DisplayTarget,
    backend: Backend,
    known: seq<string>,
    running: seq<RunningAssignment>)

  datatype Rejection =
    | UnsupportedBackend
    | EmptyNamedOutput
    | UnknownNamedOutput(output: string)
    | BlankKnownOutput(output: string)
    | DuplicateKnownOutputs(output: string)
    | BlankRunningAssignmentOutput(output: string)
    | DuplicateRunningAssignment(output: string)
    | ConflictingRunningAssignment(output: string)
    | RunningAssignmentUnknownOutput(output: string)
    | WouldAffectNonTargetDisplay(nonTarget: string)
    | ReliesOnUnknownCoexistence
    | UnverifiedTargetScope
    | StopWouldAffectNonTarget(nonTarget: string)
    | NoKnownOutputs

  // ---------------------------------------------------------------- running assignments

  /** The first assignment of an output. */
  function Lookup(running: seq<RunningAssignment>, o: string): (r: Option<Backend>)
    ensures r.None? <==> forall a :: a in running ==> a.output != o
    ensures r.Some? ==> RunningAssignment(o, r.value) in running
  {
    if running == [] then None
    else if running[0].output == o then Some(running[0].backend)
    else
      assert forall a :: a in running ==> a == running[0] || a in running[1..];
      Lookup(running[1..], o)
  }

  ghost predicate UniqueOutputs(running: seq<RunningAssignment>) {
    forall i, j :: 0 <= i < j < |running| ==> running[i].output != running[j].output
  }

  /** The desktop a running list describes. */
  function AsWorld(running: seq<RunningAssignment>): World {
    map o | o in (set a | a in running :: a.output) :: Lookup(running, o).value
  }

  function OutputsOn(running: seq<RunningAssignment>, b: Backend): (r: seq<string>)
    ensures forall o :: o in r ==> RunningAssignment(o, b) in running
    ensures forall a :: a in running && a.backend == b ==> a.output in r
  {
    if running == [] then []
    else
      var rest := OutputsOn(running[1..], b);
      assert forall a :: a in running ==> a == running[0] || a in running[1..];
      if running[0].backend == b then [running[0].output] + rest else rest
  }

  function Assigned(outputs: seq<string>, b: Backend): (r: seq<RunningAssignment>)
    ensures |r| == |outputs| && forall i :: 0 <= i < |r| ==> r[i] == RunningAssignment(outputs[i], b)
  {
    if outputs == [] then [] else [RunningAssignment(outputs[0], b)] + Assigned(outputs[1..], b)
  }

  /** The outputs are in the order of the list, and so is what remains of it. */
  lemma {:induction false} OutputsOnInOrder(running: seq<RunningAssignment>, b: Backend)
    ensures KeepsOrder(Assigned(OutputsOn(running, b), b), running)
  {
    if running != [] {
      var rest := Assigned(OutputsOn(running[1..], b), b);
      OutputsOnInOrder(running[1..], b);
      KeepsOrderNext(running[0], rest, running[1..]);
      assert [running[0]] + running[1..] == running;
      if running[0].backend == b {
        assert Assigned(OutputsOn(running, b), b) == [running[0]] + rest;
      }
    }
  }

  /** What remains of the running list when the other selected outputs are set aside. */
  function Scoped(running: seq<RunningAssignment>, output: string, selected: seq<string>): (r: seq<RunningAssignment>)
    ensures forall a :: a in r <==> a in running && (a.output == output || a.output !in selected)
  {
    if running == [] then []
    else
      var rest := Scoped(running[1..], output, selected);
      if running[0].output == output || running[0].output !in selected then [running[0]] + rest else rest
  }

  // ---------------------------------------------------------------- well-formed requests

  ghost predicate ValidKnown(known: seq<string>) {
    Distinct(known) && forall o :: o in known ==> !IsBlank(o)
  }

  ghost predicate ValidRunning(running: seq<RunningAssignment>, known: seq<string>) {
    UniqueOutputs(running) && forall a :: a in running ==> !IsBlank(a.output) && a.output in known
  }

  ghost predicate ValidTarget(target: DisplayTarget, known: seq<string>) {
    match target
    case Output(o) => !IsBlank(o) && o in known
    case Outputs(os) => os != [] && Distinct(os) && forall o :: o in os ==> !IsBlank(o) && o in known
    case AllDisplays => known != []
  }

  ghost predicate WellFormed(req: Request) {
    ValidKnown(req.known) && ValidRunning(req.running, req.known) && ValidTarget(req.target, req.known)
  }

  ghost predicate OccursTwice<T(!new)>(s: seq<T>, x: T) {
    exists i, j :: 0 <= i < j < |s| && s[i] == x && s[j] == x
  }

  // ---------------------------------------------------------------- what is planned

  /** A stop of `b` may reach outputs nobody named, by the declaration at hand or else the registered one. */
  predicate DeclaredWide(reg: Registry, cap: Capability, b: Backend) {
    if b == cap.backend then cap.StopMayAffectNonTargetOutputs()
    else reg.capabilityFor(b).Some? && reg.capabilityFor(b).value.StopMayAffectNonTargetOutputs()
  }

  /** The declarations whose stops stay where they are aimed. */
  lemma WideExactly(reg: Registry, cap: Capability, b: Backend)
    ensures var c := if b == cap.backend then Some(cap) else reg.capabilityFor(b);
            DeclaredWide(reg, cap, b) <==>
            c.Some? && c.value.stopScope !in {SharedDaemonPerOutput, NoPersistentProcess, TrackedProcessPerOutput}
  {
  }

  /** A stop of `current` for the sake of `output`; `None` when it would reach another output. */
  function TargetedStop(wide: bool, running: seq<RunningAssignment>, output: string,
        current: Backend): Option<PlannedAction> {
    if !wide then Some(Stop(current, [output]))
    else if exists a :: a in running && a.output != output && a.backend == current then None
    else Some(StopBackend(current))
  }

  /** The stops that free a target; `None` when they are not permitted. */
  function TargetStops(reg: Registry, cap: Capability, running: seq<RunningAssignment>,
        output: string): Option<seq<PlannedAction>> {
    match Lookup(running, output)
    case None => Some([])
    case Some(current) =>
      if current != cap.backend && reg.capabilityFor(current).None? then None
      else if current == cap.backend && !cap.RequiresStopBeforeSameTargetApply() then Some([])
      else
        match TargetedStop(DeclaredWide(reg, cap, current), running, output, current)
        case None => None
        case Some(stop) => Some([stop])
  }

  /** Starting on a target is refused while `other` runs on a different output. */
  predicate Conflicts(reg: Registry, cap: Capability, other: Backend) {
    if other != cap.backend then reg.PairUnverified(cap.backend, other)
    else match cap.multiInstance
      case SharedDaemon => false
      case SeparateProcessesVerified => cap.StopMayAffectNonTargetOutputs()
      case _ => true
  }

  function ApplyGroups(b: Backend, groups: seq<seq<string>>): (actions: seq<PlannedAction>)
    ensures |actions| == |groups|
    ensures forall i :: 0 <= i < |groups| ==> actions[i] == Apply(b, groups[i])
  {
    if groups == [] then [] else [Apply(b, groups[0])] + ApplyGroups(b, groups[1..])
  }

  function ApplyActions(cap: Capability, outputs: seq<string>): seq<PlannedAction> {
    ApplyGroups(cap.backend, ApplyOutputGroups(cap.allDisplays, outputs))
  }

  /** The accepted plan for one named output, if it is accepted. */
  function NamedPlan(reg: Registry, cap: Capability, running: seq<RunningAssignment>,
        output: string): Option<seq<PlannedAction>> {
    if !cap.VerifiedNamedOutputTargeting() then None
    else if exists a :: a in running && a.output != output && Conflicts(reg, cap, a.backend) then None
    else
      match TargetStops(reg, cap, running, output)
      case None => None
      case Some(stops) => Some(stops + ApplyActions(cap, [output]))
  }

  predicate NeedsUnverifiedInstances(cap: Capability, outputs: seq<string>) {
    |outputs| > 1 && cap.allDisplays.OneProcessPerOutput? && !cap.multiInstance.SeparateProcessesVerified?
  }

  function MemberPlan(reg: Registry, cap: Capability, running: seq<RunningAssignment>, selected: seq<string>,
        output: string): Option<seq<PlannedAction>> {
    NamedPlan(reg, cap, Scoped(running, output, selected), output)
  }

  function OnlyStops(actions: seq<PlannedAction>): seq<PlannedAction> {
    if actions == [] then []
    else if actions[0].Apply? then OnlyStops(actions[1..])
    else [actions[0]] + OnlyStops(actions[1..])
  }

  function OnlyApplies(actions: seq<PlannedAction>): seq<PlannedAction> {
    if actions == [] then []
    else if actions[0].Apply? then [actions[0]] + OnlyApplies(actions[1..])
    else OnlyApplies(actions[1..])
  }

  predicate MemberAccepted(reg: Registry, cap: Capability, running: seq<RunningAssignment>, selected: seq<string>,
        output: string) {
    var plan := MemberPlan(reg, cap, running, selected, output);
    plan.Some? && forall a :: a in plan.value ==> !a.StopBackend?
  }

  /** All members' actions, in selection order. */
  function MemberActions(reg: Registry, cap: Capability, running: seq<RunningAssignment>, selected: seq<string>,
        outputs: seq<string>): seq<PlannedAction>
    requires forall o :: o in outputs ==> MemberAccepted(reg, cap, running, selected, o)
  {
    if outputs == [] then []
    else
      assert MemberAccepted(reg, cap, running, selected, outputs[0]);
      MemberPlan(reg, cap, running, selected, outputs[0]).value
      + MemberActions(reg, cap, running, selected, outputs[1..])
  }

  /** The accepted plan for an explicit set: every member's stops, then every member's starts. */
  function SetPlan(reg: Registry, cap: Capability, running: seq<RunningAssignment>,
        selected: seq<string>): Option<seq<PlannedAction>> {
    if NeedsUnverifiedInstances(cap, selected) then None
    else if exists o :: o in selected && !MemberAccepted(reg, cap, running, selected, o) then None
    else
      var actions := MemberActions(reg, cap, running, selected, selected);
      Some(OnlyStops(actions) + OnlyApplies(actions))
  }

  /** Backends other than the requested one, in order of first appearance. */
  function OtherBackends(running: seq<RunningAssignment>, b: Backend): seq<Backend> {
    if running == [] then []
    else
      var before := OtherBackends(running[..|running| - 1], b);
      var last := running[|running| - 1].backend;
      if last == b || last in before then before else before + [last]
  }

  function StopGroups(running: seq<RunningAssignment>, backends: seq<Backend>): (stops: seq<PlannedAction>)
    ensures |stops| == |backends|
    ensures forall i :: 0 <= i < |backends| ==> stops[i] == Stop(backends[i], OutputsOn(running, backends[i]))
  {
    if backends == [] then []
    else [Stop(backends[0], OutputsOn(running, backends[0]))] + StopGroups(running, backends[1..])
  }

  function ReplacementStops(cap: Capability, running: seq<RunningAssignment>): seq<PlannedAction> {
    var others := StopGroups(running, OtherBackends(running, cap.backend));
    var same := OutputsOn(running, cap.backend);
    if cap.sameTargetReplacement.StopThenApply? && same != [] then others + [Stop(cap.backend, same)] else others
  }

  function AllPlan(cap: Capability, running: seq<RunningAssignment>, known: seq<string>): Option<seq<PlannedAction>> {
    if NeedsUnverifiedInstances(cap, known) then None
    else Some(ReplacementStops(cap, running) + ApplyActions(cap, known))
  }

  /** The accepted plan for a request under a given capability declaration. */
  ghost function Plan(reg: Registry, cap: Capability, req: Request): Option<seq<PlannedAction>> {
    if cap.backend != req.backend || !WellFormed(req) then None
    else match req.target
      case AllDisplays => AllPlan(cap, req.running, req.known)
      case Output(o) => NamedPlan(reg, cap, req.running, o)
      case Outputs(os) => SetPlan(reg, cap, req.running, os)
  }

  // ---------------------------------------------------------------- why a request is refused

  predicate InTarget(target: DisplayTarget, o: string): (r: bool)
    ensures r || !target.AllDisplays?
  {
    match target
    case Output(name) => o == name
    case Outputs(names) => o in names
    case AllDisplays => true
  }

  function Targets(req: Request): seq<string> {
    match req.target
    case Output(o) => [o]
    case Outputs(os) => os
    case AllDisplays => req.known
  }

  ghost predicate RunsOutsideTarget(req: Request, o: string, b: Backend) {
    RunningAssignment(o, b) in req.running && !InTarget(req.target, o)
  }

  ghost predicate RunsOnTarget(req: Request, o: string, b: Backend) {
    RunningAssignment(o, b) in req.running && InTarget(req.target, o)
  }

  /** The reason given for a refusal is true of the request. */
  ghost predicate Blames(reg: Registry, cap: Capability, req: Request, why: Rejection) {
    match why
    case UnsupportedBackend =>
      || cap.backend != req.backend
      || exists a :: a in req.running && InTarget(req.target, a.output) && reg.capabilityFor(a.backend).None?
    case EmptyNamedOutput =>
      || (req.target.Output? && IsBlank(req.target.name))
      || (req.target.Outputs? && exists o :: o in req.target.names && IsBlank(o))
    case UnknownNamedOutput(o) => !req.target.AllDisplays? && InTarget(req.target, o) && o !in req.known
    case BlankKnownOutput(o) => o in req.known && IsBlank(o)
    case DuplicateKnownOutputs(o) =>
      || OccursTwice(req.known, o)
      || (req.target.Outputs? && OccursTwice(req.target.names, o))
    case BlankRunningAssignmentOutput(o) => IsBlank(o) && exists b :: RunningAssignment(o, b) in req.running
    case DuplicateRunningAssignment(o) => exists b :: OccursTwice(req.running, RunningAssignment(o, b))
    case ConflictingRunningAssignment(o) =>
      exists b, c :: b != c && RunningAssignment(o, b) in req.running && RunningAssignment(o, c) in req.running
    case RunningAssignmentUnknownOutput(o) => o !in req.known && exists b :: RunningAssignment(o, b) in req.running
    case WouldAffectNonTargetDisplay(o) =>
      && RunsOutsideTarget(req, o, cap.backend)
      && (cap.multiInstance.OneShot? || cap.multiInstance.SingleProcessUnverified?)
    case ReliesOnUnknownCoexistence =>
      || NeedsUnverifiedInstances(cap, Targets(req))
      || (exists o :: RunsOutsideTarget(req, o, cap.backend) && cap.multiInstance.SeparateProcessesUnverified?)
      || exists o, b :: RunsOutsideTarget(req, o, b) && b != cap.backend && reg.PairUnverified(cap.backend, b)
    case UnverifiedTargetScope =>
      || !cap.VerifiedNamedOutputTargeting()
      || (req.target.Outputs? && exists o, b :: RunsOnTarget(req, o, b) && DeclaredWide(reg, cap, b))
    case StopWouldAffectNonTarget(o) => exists b :: RunsOutsideTarget(req, o, b) && DeclaredWide(reg, cap, b)
    case NoKnownOutputs =>
      || (req.target.AllDisplays? && req.known == [])
      || (req.target.Outputs? && req.target.names == [])
  }
}
