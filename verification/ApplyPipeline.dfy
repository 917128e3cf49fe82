/** From an accepted plan to executable steps: retirement splice, translation, per-output split. */
module ApplyPipeline {
  import opened Prelude
  import opened Capabilities
  import opened Renderers
  import opened Planner
  import opened PlannerTheorems

  /** A validated group of named outputs. */
  datatype ExecutionScope = AllScope | Named(outputs: seq<string>)

  datatype ExecAction =
    | ExecStop(backend: Backend, scope: ExecutionScope)
    | ExecApply(backend: Backend, path: string, scope: ExecutionScope, useInstant: bool)

  datatype ScopeError = InvalidScope(outputs: seq<string>)

  predicate ValidScope(outputs: seq<string>) {
    outputs != [] && Distinct(outputs) && forall o :: o in outputs ==> !IsBlank(o)
  }

  function NamedScope(outputs: seq<string>): (r: Result<ExecutionScope, ScopeError>)
    ensures r.Failure? <==>
            || outputs == [] || (exists o :: o in outputs && IsBlank(o))
            || exists i, j :: 0 <= i < j < |outputs| && outputs[i] == outputs[j]
  {
    if ValidScope(outputs) then Success(Named(outputs)) else Failure(InvalidScope(outputs))
  }

  // ---------------------------------------------------------------- planned outputs

  /** Drops every repetition; what remains stands where it first appeared. */
  function FirstSeen(s: seq<string>): (r: seq<string>)
    ensures Distinct(r) && forall x :: x in r <==> x in s
  {
    if s == [] then []
    else
      var earlier, last := FirstSeen(s[..|s| - 1]), s[|s| - 1];
      assert s == s[..|s| - 1] + [last];
      if last in earlier then earlier else earlier + [last]
  }

  lemma FirstSeenNext(s: seq<string>, x: string)
    ensures FirstSeen(s + [x]) == if x in FirstSeen(s) then FirstSeen(s) else FirstSeen(s) + [x]
  {
    assert (s + [x])[..|s|] == s;
  }

  /** The order is that of the first appearances. */
  lemma {:induction false} FirstSeenInOrder(s: seq<string>, i: nat, j: nat)
    requires i < j < |FirstSeen(s)|
    ensures exists k :: 0 <= k < |s| && s[k] == FirstSeen(s)[i] && FirstSeen(s)[j] !in s[..k + 1]
    decreases |s|
  {
    var n := |s| - 1;
    var before := s[..n];
    if j < |FirstSeen(before)| {
      FirstSeenInOrder(before, i, j);
      var k :| 0 <= k < n && before[k] == FirstSeen(before)[i] && FirstSeen(before)[j] !in before[..k + 1];
      assert before[..k + 1] == s[..k + 1];
    } else {
      assert FirstSeen(before)[i] in before;
      var k :| 0 <= k < n && before[k] == FirstSeen(before)[i];
      assert forall x :: x in s[..k + 1] ==> x in before;
    }
  }

  lemma {:induction false} DistinctIsFirstSeen(s: seq<string>)
    requires Distinct(s)
    ensures FirstSeen(s) == s
    decreases |s|
  {
    if s != [] {
      DistinctIsFirstSeen(s[..|s| - 1]);
      assert s == s[..|s| - 1] + [s[|s| - 1]];
    }
  }

  method AddUnseen(seen: seq<string>, planned: seq<string>, ghost before: seq<string>) returns (outputs: seq<string>)
    requires seen == FirstSeen(before)
    ensures outputs == FirstSeen(before + planned)
  {
    outputs := seen;
    assert before + planned[..0] == before;
    for j := 0 to |planned|
      invariant outputs == FirstSeen(before + planned[..j])
    {
      assert before + planned[..j + 1] == before + planned[..j] + [planned[j]];
      FirstSeenNext(before + planned[..j], planned[j]);
      if planned[j] !in outputs {
        outputs := outputs + [planned[j]];
      }
    }
    assert planned[..|planned|] == planned;
  }

  lemma AppliedNext(actions: seq<PlannedAction>, i: nat)
    requires i < |actions|
    ensures Applied(actions[..i + 1]) == Applied(actions[..i]) + if actions[i].Apply? then actions[i].outputs else []
  {
    var one := [actions[i]];
    assert actions[..i + 1] == actions[..i] + one && one[1..] == [];
    AppliedConcat(actions[..i], one);
  }

  /** Collects the planned outputs once each, in order of first appearance. */
  method PlannedApplyOutputs(actions: seq<PlannedAction>) returns (outputs: seq<string>)
    ensures outputs == FirstSeen(Applied(actions))
  {
    outputs := [];
    for i := 0 to |actions|
      invariant outputs == FirstSeen(Applied(actions[..i]))
    {
      AppliedNext(actions, i);
      if actions[i].Apply? {
        outputs := AddUnseen(outputs, actions[i].outputs, Applied(actions[..i]));
      } else {
        assert Applied(actions[..i]) + [] == Applied(actions[..i]);
      }
    }
    assert actions[..|actions|] == actions;
  }

  // ---------------------------------------------------------------- retirement splice

  predicate HasStopOf(actions: seq<PlannedAction>, b: Backend) {
    exists a :: a in actions && !a.Apply? && a.backend == b
  }

  function ExtraStops(actions: seq<PlannedAction>, cap: Capability,
        implicated: seq<Backend>): (stops: seq<PlannedAction>)
    ensures forall a :: a in stops <==> a.StopBackend? && a.backend in implicated && !HasStopOf(actions, a.backend)
                                        && (a.backend != cap.backend || cap.sameTargetReplacement.StopThenApply?)
    ensures Distinct(implicated) ==> Distinct(stops)
  {
    if implicated == [] then []
    else
      var b, rest := implicated[0], ExtraStops(actions, cap, implicated[1..]);
      if !HasStopOf(actions, b) && (b != cap.backend || cap.sameTargetReplacement.StopThenApply?) then
        [StopBackend(b)] + rest
      else rest
  }

  function FirstApply(actions: seq<PlannedAction>): (i: nat)
    ensures i <= |actions|
    ensures forall j :: 0 <= j < i ==> !actions[j].Apply?
    ensures i < |actions| ==> actions[i].Apply?
  {
    if actions == [] || actions[0].Apply? then 0 else 1 + FirstApply(actions[1..])
  }

  /** All Displays retires every backend with live evidence that no planned stop covers. */
  function Splice(actions: seq<PlannedAction>, cap: Capability, implicated: seq<Backend>): seq<PlannedAction> {
    var i := FirstApply(actions);
    actions[..i] + ExtraStops(actions, cap, implicated) + actions[i..]
  }

  lemma FirstApplySeparates(actions: seq<PlannedAction>)
    requires StopsFirst(actions)
    ensures var i := FirstApply(actions);
            && (forall a :: a in actions[..i] ==> !a.Apply?)
            && (forall a :: a in actions[i..] ==> a.Apply?)
  {
    var i := FirstApply(actions);
    forall a | a in actions[i..] ensures a.Apply? {
      var j :| 0 <= j < |actions[i..]| && actions[i..][j] == a;
      assert actions[i + j] == a;
    }
  }

  /** Splicing adds stops after the planned ones and before the first start, and nothing else. */
  lemma SpliceShape(actions: seq<PlannedAction>, cap: Capability, implicated: seq<Backend>)
    requires StopsFirst(actions)
    ensures var spliced := Splice(actions, cap, implicated);
            && StopsFirst(spliced)
            && OnlyStops(spliced) == OnlyStops(actions) + ExtraStops(actions, cap, implicated)
            && OnlyApplies(spliced) == OnlyApplies(actions)
  {
    var i := FirstApply(actions);
    FirstApplySeparates(actions);
    assert actions == actions[..i] + actions[i..];
    InsertStops(actions[..i], ExtraStops(actions, cap, implicated), actions[i..]);
  }

  lemma InsertStops(before: seq<PlannedAction>, extra: seq<PlannedAction>, after: seq<PlannedAction>)
    requires (forall a :: a in before ==> !a.Apply?) && (forall a :: a in extra ==> !a.Apply?)
             && (forall a :: a in after ==> a.Apply?)
    ensures StopsFirst(before + extra + after)
    ensures OnlyStops(before + extra + after) == OnlyStops(before + after) + extra
    ensures OnlyApplies(before + extra + after) == OnlyApplies(before + after)
  {
    OnlyStopsOfStops(before);
    OnlyStopsOfStops(extra);
    OnlyAppliesOfApplies(after);
    OnlyStopsConcat(before, after);
    OnlyStopsConcat(before + extra, after);
    OnlyStopsConcat(before, extra);
    StopsThenStarts(before + extra, after);
  }

  lemma StopsThenStarts(stops: seq<PlannedAction>, applies: seq<PlannedAction>)
    requires (forall a :: a in stops ==> !a.Apply?) && (forall a :: a in applies ==> a.Apply?)
    ensures StopsFirst(stops + applies)
  {
  }

  /**
   * After the splice every backend with live evidence is stopped, unless it replaces in place: by a
   * backend-wide stop where the plan holds no stop of it.
   */
  lemma SpliceRetires(actions: seq<PlannedAction>, cap: Capability, implicated: seq<Backend>, b: Backend)
    requires b in implicated && (b != cap.backend || cap.sameTargetReplacement.StopThenApply?)
    ensures HasStopOf(Splice(actions, cap, implicated), b)
    ensures HasStopOf(actions, b) || StopBackend(b) in Splice(actions, cap, implicated)
  {
    var spliced, i := Splice(actions, cap, implicated), FirstApply(actions);
    if HasStopOf(actions, b) {
      var a :| a in actions && !a.Apply? && a.backend == b;
      assert actions == actions[..i] + actions[i..];
      assert a in spliced;
    } else {
      assert StopBackend(b).backend == b && StopBackend(b) in ExtraStops(actions, cap, implicated);
      assert StopBackend(b) in spliced;
    }
  }

  lemma {:induction false} OnlyAppliesOfApplies(applies: seq<PlannedAction>)
    requires forall a :: a in applies ==> a.Apply?
    ensures OnlyStops(applies) == [] && OnlyApplies(applies) == applies
  {
    if applies != [] {
      assert applies[0] in applies;
      OnlyAppliesOfApplies(applies[1..]);
    }
  }

  /** The splice does not change where an All Displays plan ends. */
  lemma SpliceKeepsMeaning(p: Physics, reg: Registry, cap: Capability, running: seq<RunningAssignment>,
        known: seq<string>, implicated: seq<Backend>, w: World)
    requires Honest(p, reg, cap) && AllPlan(cap, running, known).Some?
    requires forall o :: o in w ==> o in known
    ensures var plan := AllPlan(cap, running, known).value;
            Run(p, w, Splice(plan, cap, implicated)) == Run(p, w, plan)
  {
    var plan := AllPlan(cap, running, known).value;
    AllPlanCoversEverything(p, reg, cap, running, known, w);
    var stops, applies := ReplacementStops(cap, running), ApplyActions(cap, known);
    FirstApplyAfterStops(stops, applies);
    var spliced := stops + ExtraStops(plan, cap, implicated);
    assert Splice(plan, cap, implicated) == spliced + applies;
    RunConcat(p, w, spliced, applies);
    StopsOnlyShrink(p, w, spliced);
    ApplyActionsCover(p, reg, cap, Run(p, w, spliced), known);
  }

  lemma {:induction false} FirstApplyAfterStops(stops: seq<PlannedAction>, applies: seq<PlannedAction>)
    requires (forall a :: a in stops ==> !a.Apply?) && (forall a :: a in applies ==> a.Apply?)
    ensures FirstApply(stops + applies) == |stops|
    ensures (stops + applies)[..|stops|] == stops && (stops + applies)[|stops|..] == applies
  {
    if stops != [] {
      assert stops[0] in stops;
      assert (stops + applies)[1..] == stops[1..] + applies;
      FirstApplyAfterStops(stops[1..], applies);
    } else if applies != [] {
      assert applies[0] in applies;
    }
  }

  // ---------------------------------------------------------------- translation

  function ToExecAction(action: PlannedAction, path: string, known: seq<string>,
        useInstant: bool): Result<ExecAction, ScopeError> {
    match action
    case StopBackend(b) =>
      (match NamedScope(known) { case Success(scope) => Success(ExecStop(b, scope)) case Failure(e) => Failure(e) })
    case Stop(b, outputs) =>
      (match NamedScope(outputs) { case Success(scope) => Success(ExecStop(b, scope)) case Failure(e) => Failure(e) })
    case Apply(b, outputs) =>
      (match NamedScope(outputs) {
         case Success(scope) => Success(ExecApply(b, path, scope, useInstant))
         case Failure(e) => Failure(e)
       })
  }

  function Translate(actions: seq<PlannedAction>, path: string, known: seq<string>,
        useInstant: bool): Result<seq<ExecAction>, ScopeError> {
    if actions == [] then Success([])
    else
      match ToExecAction(actions[0], path, known, useInstant)
      case Failure(e) => Failure(e)
      case Success(first) =>
        match Translate(actions[1..], path, known, useInstant)
        case Failure(e) => Failure(e)
        case Success(rest) => Success([first] + rest)
  }

  /** The planned action an executable one stands for. */
  function Erase(a: ExecAction): PlannedAction
    requires a.scope.Named?
  {
    match a
    case ExecStop(b, scope) => Stop(b, scope.outputs)
    case ExecApply(b, _, scope, _) => Apply(b, scope.outputs)
  }

  predicate AllNamed(actions: seq<ExecAction>) {
    forall a :: a in actions ==> a.scope.Named?
  }

  function EraseAll(actions: seq<ExecAction>): (r: seq<PlannedAction>)
    requires AllNamed(actions)
    ensures |r| == |actions| && forall i :: 0 <= i < |r| ==> r[i] == Erase(actions[i])
  {
    if actions == [] then [] else [Erase(actions[0])] + EraseAll(actions[1..])
  }

  ghost predicate StaysWithin(actions: seq<PlannedAction>, known: seq<string>) {
    forall a :: a in actions && a.Apply? ==> forall o :: o in a.outputs ==> o in known
  }

  /** Translation changes nothing about what the actions do, their order or the outputs they start. */
  lemma {:induction false} TranslationKeepsMeaning(p: Physics, w: World, actions: seq<PlannedAction>, path: string,
        known: seq<string>, useInstant: bool)
    requires Translate(actions, path, known, useInstant).Success?
    requires StaysWithin(actions, known) && forall o :: o in w ==> o in known
    ensures var exec := Translate(actions, path, known, useInstant).value;
            && AllNamed(exec) && |exec| == |actions|
            && Run(p, w, EraseAll(exec)) == Run(p, w, actions)
            && (forall i :: 0 <= i < |exec| ==>
                  exec[i].ExecApply? == actions[i].Apply? && exec[i].backend == actions[i].backend)
            && OnlyApplies(EraseAll(exec)) == OnlyApplies(actions)
    decreases |actions|
  {
    if actions != [] {
      var first := ToExecAction(actions[0], path, known, useInstant).value;
      var rest := Translate(actions[1..], path, known, useInstant).value;
      var w1 := Step(p, w, actions[0]);
      assert actions[0] in actions;
      assert Step(p, w, Erase(first)) == w1;
      TranslationKeepsMeaning(p, w1, actions[1..], path, known, useInstant);
      var exec := [first] + rest;
      assert exec[1..] == rest;
      assert EraseAll(exec)[1..] == EraseAll(rest);
    }
  }

  ghost predicate Translatable(a: PlannedAction) {
    a.StopBackend? || ValidScope(a.outputs)
  }

  lemma {:induction false} TranslateSucceeds(actions: seq<PlannedAction>, path: string, known: seq<string>,
        useInstant: bool)
    requires ValidScope(known) && forall a :: a in actions ==> Translatable(a)
    ensures Translate(actions, path, known, useInstant).Success?
  {
    if actions != [] {
      assert Translatable(actions[0]);
      TranslateSucceeds(actions[1..], path, known, useInstant);
    }
  }
}
