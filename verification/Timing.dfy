/** Wall-clock spans of one display operation, truncated to microseconds. */
module Timing {
  import opened Prelude

  const LIMIT: nat := 0x1_0000_0000_0000_0000

  /** Whole microseconds of a duration in nanoseconds, saturating at 64 bits. */
  function Micros(nanos: nat): (r: nat)
    ensures r < LIMIT && 1000 * r <= nanos && (r + 1 < LIMIT ==> nanos < 1000 * (r + 1))
  {
    if nanos / 1000 < LIMIT then nanos / 1000 else LIMIT - 1
  }

  /** `m[k] += v` on 64-bit counters that start at zero. */
  function Added<K>(m: map<K, nat>, k: K, v: nat): map<K, nat> {
    m[k := ((if k in m then m[k] else 0) + v) % LIMIT]
  }

  const FIRST_STAGE := "preflight"

  function DetailKey(stage: string, call: string): string {
    stage + "." + call
  }

  datatype State = State(checkpoint: nat, stage: string, stages: map<string, nat>, details: map<string, nat>)

  datatype Timings = Timings(totalMicros: nat, stages: map<string, nat>, details: map<string, nat>)

  function Entered(s: State, now: nat, stage: string): State
    requires s.checkpoint <= now
  {
    State(now, stage, Added(s.stages, s.stage, Micros(now - s.checkpoint)), s.details)
  }

  function Detailed(s: State, call: string, elapsed: nat): State {
    s.(details := Added(s.details, DetailKey(s.stage, call), Micros(elapsed)))
  }

  function SnapshotOf(started: nat, s: State, now: nat): Timings
    requires started <= s.checkpoint <= now
  {
    Timings(Micros(now - started), Added(s.stages, s.stage, Micros(now - s.checkpoint)), s.details)
  }

  // ---------------------------------------------------------------- histories

  datatype Event = Enter(at: nat, stage: string) | Call(call: string, from: nat, to: nat)

  /** The latest instant read. */
  function Latest(started: nat, events: seq<Event>): nat {
    if events == [] then started
    else match events[|events| - 1]
      case Enter(at, _) => at
      case Call(_, _, to) => to
  }

  /** Instants never decrease, measured calls are siblings, and stage labels hold no dot. */
  ghost predicate WellTimed(started: nat, events: seq<Event>) {
    events == []
    || (var before := events[..|events| - 1];
        && WellTimed(started, before)
        && match events[|events| - 1]
           case Enter(at, stage) => Latest(started, before) <= at && '.' !in stage
           case Call(_, from, to) => Latest(started, before) <= from <= to)
  }

  ghost function After(started: nat, events: seq<Event>): (s: State)
    requires WellTimed(started, events)
    ensures started <= s.checkpoint <= Latest(started, events) && '.' !in s.stage
  {
    if events == [] then State(started, FIRST_STAGE, map[], map[])
    else
      var s := After(started, events[..|events| - 1]);
      match events[|events| - 1]
      case Enter(at, stage) => Entered(s, at, stage)
      case Call(call, from, to) => Detailed(s, call, to - from)
  }

  function Enters(events: seq<Event>): nat {
    if events == [] then 0 else Enters(events[..|events| - 1]) + if events[|events| - 1].Enter? then 1 else 0
  }

  // ---------------------------------------------------------------- sums over a map

  ghost function Total(m: map<string, nat>): nat {
    if m == map[] then 0
    else
      var k :| k in m;
      m[k] + Total(m - {k})
  }

  lemma {:induction false} TotalWithout(m: map<string, nat>, k: string)
    requires k in m
    ensures Total(m) == m[k] + Total(m - {k})
    decreases |m|
  {
    var j :| j in m && Total(m) == m[j] + Total(m - {j});
    if j != k {
      TotalWithout(m - {j}, k);
      TotalWithout(m - {k}, j);
      assert m - {j} - {k} == m - {k} - {j};
    }
  }

  function At(m: map<string, nat>, k: string): nat {
    if k in m then m[k] else 0
  }

  lemma TotalUpdated(m: map<string, nat>, k: string, v: nat)
    ensures Total(m[k := v]) == Total(m) - At(m, k) + v
    ensures At(m, k) <= Total(m)
  {
    TotalWithout(m[k := v], k);
    assert m[k := v] - {k} == m - {k};
    if k in m {
      TotalWithout(m, k);
    } else {
      assert m - {k} == m;
    }
  }

  /** Without overflow, adding to one counter adds to the sum. */
  lemma TotalAdded(m: map<string, nat>, k: string, v: nat)
    requires Total(m) + v < LIMIT
    ensures Added(m, k, v) == m[k := At(m, k) + v]
    ensures Total(Added(m, k, v)) == Total(m) + v
  {
    TotalUpdated(m, k, At(m, k) + v);
    NoWrap(At(m, k) + v);
  }

  lemma NoWrap(n: nat)
    requires n < LIMIT
    ensures n % LIMIT == n
  {
  }

  // ---------------------------------------------------------------- truncation

  lemma Whole(nanos: nat)
    requires nanos / 1000 < LIMIT
    ensures 1000 * Micros(nanos) <= nanos <= 1000 * Micros(nanos) + 999
  {
  }

  /** One more truncated span: the sum stays below the truncated whole, by at most one per span before it. */
  lemma SpansAdd(closed: nat, open: nat, counted: nat, spans: nat)
    requires 1000 * counted <= closed <= 1000 * counted + 999 * spans && (closed + open) / 1000 < LIMIT
    ensures counted + Micros(open) <= Micros(closed + open) <= counted + Micros(open) + spans
  {
    Whole(open);
    Whole(closed + open);
  }

  /** Closed stages account for the time up to the checkpoint, short of less than 1 us per closed span. */
  lemma {:induction false} ClosedStages(started: nat, events: seq<Event>)
    requires WellTimed(started, events) && (Latest(started, events) - started) / 1000 < LIMIT
    ensures var s := After(started, events);
            1000 * Total(s.stages) <= s.checkpoint - started <= 1000 * Total(s.stages) + 999 * Enters(events)
    decreases |events|
  {
    if events != [] {
      var before := events[..|events| - 1];
      var s := After(started, before);
      ClosedStages(started, before);
      match events[|events| - 1] {
        case Enter(at, _) =>
          Whole(at - s.checkpoint);
          TotalAdded(s.stages, s.stage, Micros(at - s.checkpoint));
        case Call(_, _, _) =>
      }
    }
  }

  /**
   * For nondecreasing instants and totals below 2^64 microseconds, the stage values of a snapshot sum
   * to at most its total, and fall short by at most one microsecond for every call of `enter`.
   */
  lemma StagesSumToTheTotal(started: nat, events: seq<Event>, now: nat)
    requires WellTimed(started, events) && Latest(started, events) <= now && (now - started) / 1000 < LIMIT
    ensures var r := SnapshotOf(started, After(started, events), now);
            Total(r.stages) <= r.totalMicros <= Total(r.stages) + Enters(events)
  {
    var s := After(started, events);
    ClosedStages(started, events);
    SpansAdd(s.checkpoint - started, now - s.checkpoint, Total(s.stages), Enters(events));
    TotalAdded(s.stages, s.stage, Micros(now - s.checkpoint));
  }

  // ---------------------------------------------------------------- details

  predicate IsUnder(key: string, stage: string) {
    stage + "." <= key
  }

  function Under(details: map<string, nat>, stage: string): map<string, nat> {
    map k | k in details && IsUnder(k, stage) :: details[k]
  }

  /** A key belongs to one dot-free stage only. */
  lemma KeyNamesItsStage(stage: string, call: string, other: string)
    requires '.' !in stage && '.' !in other
    ensures IsUnder(DetailKey(stage, call), other) <==> stage == other
  {
    var key := DetailKey(stage, call);
    assert key[|stage|] == '.';
    if IsUnder(key, other) {
      assert key[|other|] == '.';
      assert key[..|stage|] == stage && key[..|other|] == other;
    }
  }

  lemma UnderAdded(details: map<string, nat>, stage: string, call: string, v: nat, other: string)
    requires '.' !in stage && '.' !in other
    requires Total(Under(details, stage)) + v < LIMIT
    ensures Total(Under(Added(details, DetailKey(stage, call), v), other))
            == Total(Under(details, other)) + if stage == other then v else 0
  {
    var key := DetailKey(stage, call);
    KeyNamesItsStage(stage, call, other);
    if stage == other {
      TotalAdded(Under(details, stage), key, v);
      assert Under(Added(details, key, v), other) == Added(Under(details, other), key, v);
    } else {
      assert Under(Added(details, key, v), other) == Under(details, other);
    }
  }

  /** Details of a stage stay within what it has been given, counting the span still open until `now`. */
  ghost predicate Fits(s: State, now: nat, stage: string)
    requires s.checkpoint <= now
  {
    Total(Under(s.details, stage)) <= At(s.stages, stage) + if stage == s.stage then (now - s.checkpoint) / 1000 else 0
  }

  lemma EnterFits(s: State, last: nat, at: nat, next: string, stage: string)
    requires s.checkpoint <= last <= at && Fits(s, last, stage)
    requires Total(s.stages) + Micros(at - s.checkpoint) < LIMIT && (at - s.checkpoint) / 1000 < LIMIT
    ensures Fits(Entered(s, at, next), at, stage)
  {
    TotalAdded(s.stages, s.stage, Micros(at - s.checkpoint));
  }

  lemma CallFits(s: State, last: nat, call: string, from: nat, to: nat, stage: string)
    requires s.checkpoint <= last <= from <= to && Fits(s, last, stage) && Fits(s, last, s.stage)
    requires At(s.stages, s.stage) + (to - s.checkpoint) / 1000 < LIMIT
    requires '.' !in stage && '.' !in s.stage
    ensures Fits(Detailed(s, call, to - from), to, stage)
  {
    var elapsed := to - from;
    assert (last - s.checkpoint) / 1000 + elapsed / 1000 <= (to - s.checkpoint) / 1000;
    UnderAdded(s.details, s.stage, call, Micros(elapsed), stage);
  }

  lemma {:induction false} DetailsSoFar(started: nat, events: seq<Event>, stage: string)
    requires WellTimed(started, events) && (Latest(started, events) - started) / 1000 < LIMIT && '.' !in stage
    ensures Fits(After(started, events), Latest(started, events), stage)
    decreases |events|
  {
    if events == [] {
      assert Under(map[], stage) == map[];
    } else {
      var before := events[..|events| - 1];
      var s, last := After(started, before), Latest(started, before);
      DetailsSoFar(started, before, stage);
      ClosedStages(started, before);
      match events[|events| - 1] {
        case Enter(at, next) =>
          EnterFits(s, last, at, next, stage);
        case Call(call, from, to) =>
          DetailsSoFar(started, before, s.stage);
          TotalUpdated(s.stages, s.stage, 0);
          CallFits(s, last, call, from, to, stage);
      }
    }
  }

  /** In every snapshot, the calls measured within a stage sum to at most that stage's value. */
  lemma DetailsFitTheirStage(started: nat, events: seq<Event>, now: nat, stage: string)
    requires WellTimed(started, events) && Latest(started, events) <= now && (now - started) / 1000 < LIMIT
    requires '.' !in stage
    ensures var r := SnapshotOf(started, After(started, events), now);
            Total(Under(r.details, stage)) <= At(r.stages, stage)
  {
    var s := After(started, events);
    DetailsSoFar(started, events, stage);
    ClosedStages(started, events);
    TotalAdded(s.stages, s.stage, Micros(now - s.checkpoint));
  }

  // ---------------------------------------------------------------- the timer

  /** The fields as they are updated; `events` is everything the timer has been told. */
  class OperationTimer {
    const started: nat
    var checkpoint: nat
    var stage: string
    var stages: map<string, nat>
    var details: map<string, nat>
    ghost var events: seq<Event>

    ghost predicate Valid()
      reads this
    {
      WellTimed(started, events) && After(started, events) == State(checkpoint, stage, stages, details)
    }

    constructor (now: nat)
      ensures Valid() && started == now && events == [] && stage == "preflight"
    {
      started, checkpoint, stage, stages, details, events := now, now, FIRST_STAGE, map[], map[], [];
    }

    /** `now` is the clock, which never runs backwards. */
    method Enter(now: nat, next: string)
      requires Valid() && Latest(started, events) <= now && '.' !in next
      modifies this
      ensures Valid() && events == old(events) + [Event.Enter(now, next)]
    {
      stages := Added(stages, stage, Micros(now - checkpoint));
      checkpoint := now;
      stage := next;
      events := events + [Event.Enter(now, next)];
      assert events[..|events| - 1] == old(events);
    }

    /** `from` and `to` are the instants around the measured call; calls of one stage are siblings. */
    method Measure(call: string, from: nat, to: nat)
      requires Valid() && Latest(started, events) <= from <= to
      modifies this
      ensures Valid() && events == old(events) + [Event.Call(call, from, to)]
    {
      details := RecordDetail(call, to - from);
      events := events + [Event.Call(call, from, to)];
      assert events[..|events| - 1] == old(events);
    }

    method RecordDetail(call: string, elapsed: nat) returns (updated: map<string, nat>)
      ensures updated == Added(details, DetailKey(stage, call), Micros(elapsed))
    {
      updated := Added(details, stage + "." + call, Micros(elapsed));
    }

    /**
     * As long as less than 2^64 microseconds have passed: the stages sum to the total, short of at most
     * one microsecond per stage change, and the calls of every stage fit into it.
     */
    method Snapshot(now: nat) returns (r: Timings)
      requires Valid() && Latest(started, events) <= now
      ensures r.totalMicros == Micros(now - started) && r.details == details
      ensures (now - started) / 1000 < 0x1_0000_0000_0000_0000 ==>
                Total(r.stages) <= r.totalMicros <= Total(r.stages) + Enters(events)
      ensures (now - started) / 1000 < 0x1_0000_0000_0000_0000 ==>
                forall s :: '.' !in s ==> Total(Under(r.details, s)) <= At(r.stages, s)
    {
      var current := Added(stages, stage, Micros(now - checkpoint));
      r := Timings(Micros(now - started), current, details);
      if (now - started) / 1000 < LIMIT {
        StagesSumToTheTotal(started, events, now);
        forall s | '.' !in s ensures Total(Under(r.details, s)) <= At(r.stages, s) {
          DetailsFitTheirStage(started, events, now, s);
        }
      }
    }
  }
}
