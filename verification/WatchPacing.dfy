/** When the watcher slows down, and how it sleeps. */
module WatchPacing {
  import opened Prelude
  import opened DisplayState
  import SessionIntents
  import opened Connectors

  datatype RoundFacts = RoundFacts(
    snapshot: Option<seq<Connector>>,
    pendingEmpty: bool,
    retriesEmpty: bool,
    confirmed: set<string>,
    intents: SessionIntents.Intents,
    saved: map<string, Assignment>)
  {
    predicate Quiet() {
      snapshot.Some? && pendingEmpty && retriesEmpty
    }
  }

  const ACTIVE_MILLIS: nat := 300
  const IDLE_MILLIS: nat := 2000
  const STABLE_ROUNDS: nat := 10

  datatype Pace = Pace(stable: nat, previous: Option<RoundFacts>)

  function Paced(p: Pace, r: RoundFacts): Pace {
    Pace(
      if r.Quiet() && p.previous == Some(r) then (if p.stable < STABLE_ROUNDS then p.stable + 1 else STABLE_ROUNDS)
      else 0,
      if r.snapshot.Some? then Some(r) else None)
  }

  // ---------------------------------------------------------------- histories

  datatype Event = Woken | Round(facts: RoundFacts)

  function After(events: seq<Event>): (p: Pace)
    ensures p.stable <= STABLE_ROUNDS
  {
    if events == [] then Pace(0, None)
    else match events[|events| - 1]
      case Woken => Pace(0, None)
      case Round(r) => Paced(After(events[..|events| - 1]), r)
  }

  /** The last `n` events are rounds, all quiet and all alike. */
  ghost predicate StableFor(events: seq<Event>, n: nat) {
    && n <= |events|
    && forall i :: |events| - n <= i < |events| ==>
         events[i].Round? && events[i].facts.Quiet() && events[i] == events[|events| - 1]
  }

  lemma {:induction false} CountMeasuresStability(events: seq<Event>, n: nat)
    requires 1 <= n <= STABLE_ROUNDS
    ensures After(events).stable >= n <==> StableFor(events, n + 1)
    ensures events == [] ==> After(events).previous.None?
    ensures events != [] ==>
              var last := events[|events| - 1];
              After(events).previous == if last.Round? && last.facts.snapshot.Some? then Some(last.facts) else None
    decreases |events|
  {
    if events != [] && events[|events| - 1].Round? {
      var k := |events| - 1;
      var before, r := events[..k], events[k].facts;
      CountMeasuresStability(before, if n == 1 then 1 else n - 1);
      if StableFor(events, n + 1) {
        assert before != [] && before[k - 1] == events[k - 1] == events[k];
        assert n > 1 ==> StableFor(before, n);
      }
      if After(events).stable >= n {
        assert before != [] && events[k - 1] == Round(r);
        if n > 1 {
          assert StableFor(before, n);
        }
        forall i | k - n <= i <= k ensures events[i] == events[k] {
          if i < k {
            assert events[i] == before[i];
          }
        }
      }
    }
  }

  /**
   * The watcher idles after a round exactly when the latest eleven rounds, with no wake among them,
   * were quiet and equal.
   */
  lemma IdleExactlyWhenStable(events: seq<Event>)
    ensures After(events).stable == STABLE_ROUNDS <==> StableFor(events, STABLE_ROUNDS + 1)
  {
    CountMeasuresStability(events, STABLE_ROUNDS);
  }

  /** The pacing fields; `events` is every wake and every round so far. */
  class Watch {
    var unchangedRounds: nat
    var previous: Option<RoundFacts>
    ghost var events: seq<Event>

    ghost predicate Valid()
      reads this
    {
      After(events) == Pace(unchangedRounds, previous)
    }

    constructor ()
      ensures Valid() && events == []
    {
      unchangedRounds, previous, events := 0, None, [];
    }

    method Wake()
      modifies this
      ensures Valid() && events == old(events) + [Woken]
    {
      unchangedRounds, previous := 0, None;
      events := events + [Woken];
    }

    /** Idles exactly when the latest eleven rounds since the last wake are quiet and equal. */
    method Observe(r: RoundFacts) returns (millis: nat)
      requires Valid()
      modifies this
      ensures Valid() && events == old(events) + [Round(r)]
      ensures millis == if StableFor(events, 11) then 2000 else 300
    {
      if r.snapshot.Some? && r.pendingEmpty && r.retriesEmpty && previous == Some(r) {
        unchangedRounds := if unchangedRounds + 1 < STABLE_ROUNDS then unchangedRounds + 1 else STABLE_ROUNDS;
      } else {
        unchangedRounds := 0;
      }
      previous := if r.snapshot.Some? then Some(r) else None;
      millis := if unchangedRounds == STABLE_ROUNDS then IDLE_MILLIS else ACTIVE_MILLIS;
      events := events + [Round(r)];
      assert events[..|events| - 1] == old(events);
      IdleExactlyWhenStable(events);
    }
  }

  // ---------------------------------------------------------------- waiting

  function Sum(s: seq<nat>): nat {
    if s == [] then 0 else Sum(s[..|s| - 1]) + s[|s| - 1]
  }

  /**
   * `probe(i)` is the i-th reading of the watched files, `None` when it failed.
   * An undisturbed idle wait sleeps slices of at most 300 ms that add up to the interval; a wake comes
   * on the first slice after which the reading is not the initial one.
   */
  method WaitForWatch<T(==)>(interval: nat, probe: nat -> Option<T>) returns (woken: bool, sleeps: seq<nat>)
    ensures interval != 2000 ==> !woken && sleeps == [interval]
    ensures interval == 2000 ==> forall i :: 0 <= i < |sleeps| ==> 0 < sleeps[i] <= 300
    ensures interval == 2000 && !woken ==> Sum(sleeps) == interval
    ensures interval == 2000 && !woken ==>
              probe(0).Some? && forall i :: 0 <= i <= |sleeps| ==> probe(i) == probe(0)
    ensures interval == 2000 && woken ==>
              || (probe(0).None? && sleeps == [])
              || (probe(0).Some? && |sleeps| > 0 && probe(|sleeps|) != probe(0)
                  && forall i :: 0 <= i < |sleeps| ==> probe(i) == probe(0))
  {
    if interval != IDLE_MILLIS {
      return false, [interval];
    }
    sleeps := [];
    if probe(0).None? {
      return true, sleeps;
    }
    var remaining := interval;
    while remaining != 0
      invariant 0 <= remaining && Sum(sleeps) + remaining == interval
      invariant forall i :: 0 <= i < |sleeps| ==> 0 < sleeps[i] <= ACTIVE_MILLIS
      invariant forall i :: 0 <= i <= |sleeps| ==> probe(i) == probe(0)
    {
      var slice: nat := if remaining < ACTIVE_MILLIS then remaining else ACTIVE_MILLIS;
      assert (sleeps + [slice])[..|sleeps|] == sleeps;
      var taken: seq<nat> := [slice];
      sleeps := sleeps + taken;
      if probe(|sleeps|) != probe(0) {
        return true, sleeps;
      }
      remaining := remaining - slice;
    }
    return false, sleeps;
  }
}
