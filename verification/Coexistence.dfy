/** When every target of an accepted request is reached, as something a caller can read off the declaration. */
module Coexistence {
  import opened Prelude
  import opened Capabilities
  import opened Renderers
  import opened Planner
  import opened PlannerTheorems
  import opened ApplyPipeline
  import opened ApplySteps

  /** A desktop on which instances of one backend clear each other, and nothing else goes wrong. */
  ghost function Clashing(b: Backend): Physics {
    Physics(x => false, (x, y) => x == b && y == b)
  }

  lemma ClashingIsHonest(reg: Registry, cap: Capability)
    ensures Honest(Clashing(cap.backend), reg, cap) <==> !cap.InstancesCoexist()
  {
    assert Clashing(cap.backend).disturbs(cap.backend, cap.backend);
  }

  /**
   * An accepted set reaches all its members on every desktop its declaration allows, exactly when the
   * set has one member or the declaration says that instances coexist.
   */
  lemma SetReachesEverywhere(reg: Registry, cap: Capability, running: seq<RunningAssignment>, selected: seq<string>)
    requires Distinct(selected) && selected != [] && SetPlan(reg, cap, running, selected).Some?
    ensures (forall p :: Honest(p, reg, cap) ==>
               Run(p, AsWorld(running), SetPlan(reg, cap, running, selected).value)
               == Covered(AsWorld(running), selected, cap.backend))
            <==> |selected| == 1 || cap.InstancesCoexist()
  {
    forall p | Honest(p, reg, cap)
      ensures Run(p, AsWorld(running), SetPlan(reg, cap, running, selected).value)
              == Covered(AsWorld(running), selected, cap.backend)
              <==> |selected| == 1 || !p.disturbs(cap.backend, cap.backend)
    {
      SetPlanMovesOnlyItsTargets(p, reg, cap, running, selected);
    }
    ClashingIsHonest(reg, cap);
    assert Clashing(cap.backend).disturbs(cap.backend, cap.backend);
  }

  /** What the executable steps leave. */
  ghost function Reached(p: Physics, reg: Registry, cap: Capability, req: Request, implicated: seq<Backend>,
        path: string, useInstant: bool, perOutput: bool, w: World): World
    requires Plan(reg, cap, req).Some?
  {
    StepsExist(reg, cap, req, implicated, path, useInstant, perOutput);
    Run(p, w, EraseAll(Flatten(Steps(reg, cap, req, implicated, path, useInstant, perOutput).value)))
  }

  /**
   * The executable steps of any accepted request reach all targets on every desktop its declaration
   * allows, exactly when there is one target, or instances coexist, or one All Displays step starts
   * them together.
   */
  lemma StepsReachEverywhere(reg: Registry, cap: Capability, req: Request, implicated: seq<Backend>, path: string,
        useInstant: bool, perOutput: bool, w: World)
    requires Plan(reg, cap, req).Some? && forall o :: o in w ==> o in req.known
    requires !req.target.AllDisplays? ==> w == AsWorld(req.running)
    ensures (forall p :: Honest(p, reg, cap) ==>
               Reached(p, reg, cap, req, implicated, path, useInstant, perOutput, w)
               == Covered(w, Targets(req), cap.backend))
            <==> |Targets(req)| == 1 || cap.InstancesCoexist() || (req.target.AllDisplays? && !perOutput)
  {
    forall p | Honest(p, reg, cap)
      ensures Reached(p, reg, cap, req, implicated, path, useInstant, perOutput, w)
              == Covered(w, Targets(req), cap.backend)
              <==> |Targets(req)| == 1 || !p.disturbs(cap.backend, cap.backend)
                   || (req.target.AllDisplays? && !perOutput)
    {
      StepsReachTheTargets(p, reg, cap, req, implicated, path, useInstant, perOutput, w);
    }
    ClashingIsHonest(reg, cap);
    assert Clashing(cap.backend).disturbs(cap.backend, cap.backend);
  }

  // ---------------------------------------------------------------- an input that fails

  /** Targetable by name, started once for all displays, side-by-side instances unproven. */
  const UNPROVEN := Capability(Swaybg, NamedOutputs, CliVerified, OmitMeansAll, TrackedProcessPerOutput,
                               SeparateProcessesUnverified, InPlace)

  const UNREGISTERED := Registry(b => None, (x, y) => UnverifiedPair)

  const BOTH := ["A", "B"]

  lemma BothAreNames()
    ensures Distinct(BOTH) && forall o :: o in BOTH ==> !IsBlank(o)
  {
    assert "A"[0] != "B"[0];
    assert !IsWhitespace("A"[0]) && !IsWhitespace("B"[0]);
  }

  /**
   * Two vacant outputs, the set of both, and an injected declaration of unproven instances: accepted,
   * yet on a desktop where instances clash the first output ends up vacant.
   */
  lemma UnprovenSetLosesAnOutput()
    ensures SetPlan(UNREGISTERED, UNPROVEN, [], BOTH).Some?
    ensures Honest(Clashing(Swaybg), UNREGISTERED, UNPROVEN)
    ensures "A" !in Run(Clashing(Swaybg), map[], SetPlan(UNREGISTERED, UNPROVEN, [], BOTH).value)
  {
    BothAreNames();
    ClashingIsHonest(UNREGISTERED, UNPROVEN);
    forall o | o in BOTH ensures MemberAccepted(UNREGISTERED, UNPROVEN, [], BOTH, o) {
      VacantMemberAccepted(BOTH, o);
    }
    SetPlanShape(UNREGISTERED, UNPROVEN, [], BOTH);
    NoMemberStops(UNREGISTERED, UNPROVEN, BOTH, BOTH);
    assert [] + ApplyEach(Swaybg, BOTH) == ApplyEach(Swaybg, BOTH);
    ApplyEachLosesFirst(Clashing(Swaybg), map[], Swaybg, BOTH);
  }

  lemma VacantMemberAccepted(selected: seq<string>, o: string)
    ensures MemberAccepted(UNREGISTERED, UNPROVEN, [], selected, o)
  {
    assert Scoped([], o, selected) == [];
    SingleGroup(UNPROVEN, o);
  }

  /** The same declaration loses the first output when an All Displays start is split per output. */
  lemma UnprovenSplitLosesAnOutput()
    ensures var req := Request(AllDisplays, Swaybg, BOTH, []);
            && Plan(UNREGISTERED, UNPROVEN, req).Some?
            && "A" !in Reached(Clashing(Swaybg), UNREGISTERED, UNPROVEN, req, [], "", false, true, map[])
  {
    BothAreNames();
    SplitLosesFirst(Clashing(Swaybg), UNREGISTERED, UNPROVEN, Request(AllDisplays, Swaybg, BOTH, []), map[]);
  }

  lemma {:induction false} NoMemberStops(reg: Registry, cap: Capability, selected: seq<string>, outputs: seq<string>)
    requires forall o :: o in outputs ==> MemberAccepted(reg, cap, [], selected, o)
    ensures AllMemberStops(reg, cap, [], selected, outputs) == []
  {
    if outputs != [] {
      assert MemberAccepted(reg, cap, [], selected, outputs[0]);
      assert Scoped([], outputs[0], selected) == [];
      NoMemberStops(reg, cap, selected, outputs[1..]);
    }
  }

  /** A per-output split of an All Displays start loses the first output when instances clash. */
  lemma SplitLosesFirst(p: Physics, reg: Registry, cap: Capability, req: Request, w: World)
    requires Plan(reg, cap, req).Some? && req.target.AllDisplays? && |req.known| >= 2
    requires p.disturbs(cap.backend, cap.backend)
    ensures req.known[0] !in Reached(p, reg, cap, req, [], "", false, true, w)
  {
    StepsExist(reg, cap, req, [], "", false, true);
    TranslatedShape(reg, cap, req, [], "", false);
    RetiredShape(reg, cap, req, []);
    var exec := Translate(Retired(reg, cap, req, []), "", req.known, false).value;
    EraseStops(exec);
    SplitErases(ExecStops(exec), cap.backend, "", req.known, false);
    var stops := OnlyStops(EraseAll(exec));
    RunConcat(p, w, stops, ApplyEach(cap.backend, req.known));
    ApplyEachLosesFirst(p, Run(p, w, stops), cap.backend, req.known);
  }
}
