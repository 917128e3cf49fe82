/** What the planned actions do to a desktop: a small-step meaning over `output -> backend`. */
module Renderers {
  import opened Prelude
  import opened Capabilities

  datatype PlannedAction =
    | StopBackend(backend: Backend)
    | Stop(backend: Backend, outputs: seq<string>)
    | Apply(backend: Backend, outputs: seq<string>)

  /** The backend drawing on each output; an absent output is vacant. */
  type World = map<string, Backend>

  /**
   * How a real desktop reacts.
   * `wide(b)`: stopping `b` anywhere ends every renderer of `b`.
   * `disturbs(b, x)`: starting `b` on one output clears the other outputs that show `x`.
   */
  datatype Physics = Physics(wide: Backend -> bool, disturbs: (Backend, Backend) -> bool)

  function Without(w: World, b: Backend): World {
    map o | o in w && w[o] != b :: w[o]
  }

  function Cleared(w: World, b: Backend, outputs: seq<string>): World {
    map o | o in w && !(o in outputs && w[o] == b) :: w[o]
  }

  function Covered(w: World, outputs: seq<string>, b: Backend): World {
    map o | o in w.Keys + (set x | x in outputs) :: if o in outputs then b else w[o]
  }

  function Step(p: Physics, w: World, action: PlannedAction): World {
    match action
    case StopBackend(b) => Without(w, b)
    case Stop(b, outputs) => if p.wide(b) then Without(w, b) else Cleared(w, b, outputs)
    case Apply(b, outputs) =>
      Covered(map o | o in w && !(o !in outputs && p.disturbs(b, w[o])) :: w[o], outputs, b)
  }

  function Run(p: Physics, w: World, actions: seq<PlannedAction>): World
    decreases |actions|
  {
    if actions == [] then w else Run(p, Step(p, w, actions[0]), actions[1..])
  }

  lemma {:induction false} RunConcat(p: Physics, w: World, a: seq<PlannedAction>, b: seq<PlannedAction>)
    ensures Run(p, w, a + b) == Run(p, Run(p, w, a), b)
    decreases |a|
  {
    if a == [] {
      assert a + b == b;
    } else {
      assert (a + b)[1..] == a[1..] + b;
      RunConcat(p, Step(p, w, a[0]), a[1..], b);
    }
  }

  /** A world reached by stops alone is part of the world it started from. */
  lemma {:induction false} StopsOnlyShrink(p: Physics, w: World, stops: seq<PlannedAction>)
    requires forall a :: a in stops ==> !a.Apply?
    ensures forall o :: o in Run(p, w, stops) ==> o in w && Run(p, w, stops)[o] == w[o]
    decreases |stops|
  {
    if stops != [] {
      assert !stops[0].Apply?;
      StopsOnlyShrink(p, Step(p, w, stops[0]), stops[1..]);
    }
  }

  /** One Apply per output, in order. */
  function ApplyEach(b: Backend, outputs: seq<string>): (actions: seq<PlannedAction>)
    ensures |actions| == |outputs|
    ensures forall i :: 0 <= i < |outputs| ==> actions[i] == Apply(b, [outputs[i]])
  {
    if outputs == [] then [] else [Apply(b, [outputs[0]])] + ApplyEach(b, outputs[1..])
  }

  /** Starting `b` output by output reaches them all when its instances do not disturb each other. */
  lemma {:induction false} ApplyEachCovers(p: Physics, w: World, b: Backend, outputs: seq<string>)
    requires |outputs| <= 1 || !p.disturbs(b, b)
    ensures forall o :: o in outputs ==> Get(Run(p, w, ApplyEach(b, outputs)), o) == Some(b)
    ensures forall o :: o in Run(p, w, ApplyEach(b, outputs)) ==> o in w || o in outputs
    ensures forall o ::
              o in w && o !in outputs && !p.disturbs(b, w[o]) ==> Get(Run(p, w, ApplyEach(b, outputs)), o) == Some(w[o])
    ensures !p.disturbs(b, b) ==>
              forall o :: o in w && w[o] == b ==> Get(Run(p, w, ApplyEach(b, outputs)), o) == Some(b)
    decreases |outputs|
  {
    if outputs != [] {
      var w1 := Step(p, w, Apply(b, [outputs[0]]));
      assert ApplyEach(b, outputs)[1..] == ApplyEach(b, outputs[1..]);
      ApplyEachCovers(p, w1, b, outputs[1..]);
      if |outputs| == 1 {
        assert outputs[1..] == [];
        assert Run(p, w, ApplyEach(b, outputs)) == w1;
      }
      assert outputs[0] in w1 && w1[outputs[0]] == b;
    }
  }

  /** When they do disturb each other only the last output started survives. */
  lemma {:induction false} ApplyEachLosesFirst(p: Physics, w: World, b: Backend, outputs: seq<string>)
    requires |outputs| >= 2 && Distinct(outputs) && p.disturbs(b, b)
    ensures outputs[0] !in Run(p, w, ApplyEach(b, outputs))
  {
    var first, rest := outputs[0], outputs[1..];
    var w1 := Step(p, w, Apply(b, [first]));
    var w2 := Step(p, w1, Apply(b, [rest[0]]));
    assert ApplyEach(b, outputs)[1..] == ApplyEach(b, rest);
    assert ApplyEach(b, rest)[1..] == ApplyEach(b, rest[1..]);
    assert first !in w2;
    assert first !in rest[1..];
    StaysVacant(p, w2, b, rest[1..], first);
  }

  lemma {:induction false} StaysVacant(p: Physics, w: World, b: Backend, outputs: seq<string>, o: string)
    requires o !in w && o !in outputs
    ensures o !in Run(p, w, ApplyEach(b, outputs))
    decreases |outputs|
  {
    if outputs != [] {
      assert ApplyEach(b, outputs)[1..] == ApplyEach(b, outputs[1..]);
      StaysVacant(p, Step(p, w, Apply(b, [outputs[0]])), b, outputs[1..], o);
    }
  }
}
