/** Epoch-stamped stop intents of a desktop session refine a log of stop and start writes. */
module SessionIntents {
  import opened Prelude

  datatype Intent = Intent(epoch: nat, stopped: bool)

  type Intents = map<string, Intent>

  /** The key under which a stop of every output is recorded. */
  const EVERYTHING := "*"

  const MAX_EPOCH: nat := 0xFFFF_FFFF_FFFF_FFFF

  ghost function MaxEpoch(m: Intents): (r: nat)
    ensures forall k :: k in m ==> m[k].epoch <= r
    ensures m == map[] ==> r == 0
    ensures m != map[] ==> exists k :: k in m && m[k].epoch == r
  {
    if m == map[] then 0
    else
      var k :| k in m;
      var rest := MaxEpoch(m - {k});
      assert forall j :: j in m && j != k ==> j in m - {k};
      if m[k].epoch >= rest then m[k].epoch else rest
  }

  /** The table after one accepted write. */
  ghost function Written(m: Intents, outputs: seq<string>, stopped: bool): Intents {
    var epoch := MaxEpoch(m) + 1;
    m + map o | o in outputs :: Intent(epoch, stopped)
  }

  /** The rule the watcher applies to an output. */
  predicate IsStopped(m: Intents, o: string) {
    var global := if EVERYTHING in m && m[EVERYTHING].stopped then m[EVERYTHING].epoch else 0;
    if o in m then m[o].stopped || m[o].epoch < global else global > 0
  }

  method InsertAll(m: Intents, outputs: seq<string>, intent: Intent) returns (updated: Intents)
    ensures updated == m + map o | o in outputs :: intent
  {
    updated := m;
    for i := 0 to |outputs|
      invariant updated == m + map o | o in outputs[..i] :: intent
    {
      assert outputs[..i + 1] == outputs[..i] + [outputs[i]];
      updated := updated[outputs[i] := intent];
    }
    assert outputs[..|outputs|] == outputs;
  }

  /** The session's table; writing it can fail, and then nothing changes. */
  class SessionStore {
    var intents: Intents

    /** How often the table or its mirror could not be written. */
    ghost var faults: nat

    method Write(outputs: seq<string>, stopped: bool) returns (ok: bool)
      modifies this
      ensures ok ==> intents == Written(old(intents), outputs, stopped)
      ensures ok ==> MaxEpoch(old(intents)) < MAX_EPOCH
      ensures !ok ==> intents == old(intents)
      ensures faults == old(faults) + if ok || MaxEpoch(old(intents)) >= MAX_EPOCH then 0 else 1
    {
      var highest := Highest();
      if highest >= MAX_EPOCH {
        return false;
      }
      var updated := InsertAll(intents, outputs, Intent(highest + 1, stopped));
      var replaced: bool := *;
      if replaced {
        intents := updated;
      } else {
        faults := faults + 1;
      }
      return replaced;
    }

    method Highest() returns (r: nat)
      ensures r == MaxEpoch(intents)
    {
      r := 0;
      var rest := intents;
      while rest != map[]
        invariant forall k :: k in rest ==> k in intents && intents[k] == rest[k]
        invariant forall k :: k in intents && k !in rest ==> intents[k].epoch <= r
        invariant r == 0 || exists k :: k in intents && intents[k].epoch == r
        decreases |rest|
      {
        var k :| k in rest;
        if rest[k].epoch > r {
          r := rest[k].epoch;
        }
        rest := rest - {k};
      }
    }

    /** Stops every output: whatever the table held, each output counts as stopped afterwards. */
    method StopEverything() returns (ok: bool)
      modifies this
      ensures ok ==> intents == Written(old(intents), [EVERYTHING], true)
      ensures ok ==> forall o :: IsStopped(intents, o)
      ensures !ok ==> intents == old(intents)
      ensures faults == old(faults) + if ok || MaxEpoch(old(intents)) >= MAX_EPOCH then 0 else 1
    {
      ghost var before := intents;
      ok := Write([EVERYTHING], true);
      if ok {
        forall o ensures IsStopped(intents, o) {
          EverythingStops(before, o);
        }
      }
    }

    /**
     * Records a stop or a start of outputs, then mirrors it in the database, which may fail after the
     * intents were written. Once written, the rule says of these outputs what was recorded.
     */
    method SetOutputsStopped(outputs: seq<string>, stopped: bool) returns (ok: bool)
      modifies this
      ensures ok ==> intents == Written(old(intents), outputs, stopped)
      ensures ok ==> forall o :: o in outputs ==> (IsStopped(intents, o) <==> stopped)
      ensures intents in {old(intents), Written(old(intents), outputs, stopped)}
      ensures faults == old(faults) + if ok || MaxEpoch(old(intents)) >= MAX_EPOCH then 0 else 1
    {
      ghost var before := intents;
      ok := Write(outputs, stopped);
      if ok {
        forall o | o in outputs ensures IsStopped(intents, o) <==> stopped {
          WrittenDecides(before, outputs, stopped, o);
        }
        var mirrored: bool := *;
        if !mirrored {
          faults := faults + 1;
        }
        ok := mirrored;
      }
    }
  }

  /** The write is in the table, unless it failed or the epochs are exhausted. */
  twostate predicate Recorded(store: SessionStore, outputs: seq<string>, stopped: bool)
    reads store
  {
    || store.intents == Written(old(store.intents), outputs, stopped)
    || (store.intents == old(store.intents)
        && (store.faults > old(store.faults) || MaxEpoch(old(store.intents)) >= MAX_EPOCH))
  }

  lemma EverythingStops(m: Intents, o: string)
    ensures IsStopped(Written(m, [EVERYTHING], true), o)
  {
    assert EVERYTHING in [EVERYTHING];
  }

  lemma WrittenDecides(m: Intents, outputs: seq<string>, stopped: bool, o: string)
    requires o in outputs
    ensures IsStopped(Written(m, outputs, stopped), o) <==> stopped
  {
  }

  // ---------------------------------------------------------------- the log

  datatype Entry = Entry(outputs: seq<string>, stopped: bool)

  ghost function After(log: seq<Entry>): Intents {
    if log == [] then map[]
    else
      var last := log[|log| - 1];
      Written(After(log[..|log| - 1]), last.outputs, last.stopped)
  }

  /** How many writes so far named any output. */
  function Count(log: seq<Entry>): nat {
    if log == [] then 0 else Count(log[..|log| - 1]) + if log[|log| - 1].outputs == [] then 0 else 1
  }

  ghost predicate LastNaming(log: seq<Entry>, j: int, o: string) {
    0 <= j < |log| && o in log[j].outputs && forall k :: j < k < |log| ==> o !in log[k].outputs
  }

  lemma {:induction false} CountGrows(log: seq<Entry>, i: nat)
    requires i <= |log|
    ensures Count(log[..i]) <= Count(log)
    ensures forall k :: i <= k < |log| && log[k].outputs != [] ==> Count(log[..i]) < Count(log)
    decreases |log|
  {
    if i < |log| {
      var n := |log| - 1;
      assert log[..n][..i] == log[..i];
      CountGrows(log[..n], i);
      forall k | i <= k < n && log[k].outputs != [] ensures Count(log[..i]) < Count(log) {
        assert log[..n][k].outputs != [];
      }
    } else {
      assert log[..i] == log;
    }
  }

  /** The last write that names an output, if any. */
  function LastNamed(log: seq<Entry>, o: string): (r: Option<nat>)
    ensures r.Some? ==> LastNaming(log, r.value, o)
    ensures r.None? ==> forall k :: 0 <= k < |log| ==> o !in log[k].outputs
  {
    if log == [] then None
    else if o in log[|log| - 1].outputs then Some(|log| - 1)
    else
      var r := LastNamed(log[..|log| - 1], o);
      assert forall k :: 0 <= k < |log| - 1 ==> log[k] == log[..|log| - 1][k];
      r
  }

  lemma {:induction false} HighestIsCount(log: seq<Entry>)
    ensures MaxEpoch(After(log)) == Count(log)
    decreases |log|
  {
    if log != [] {
      var last := log[|log| - 1];
      HighestIsCount(log[..|log| - 1]);
      EpochAfterWrite(After(log[..|log| - 1]), last.outputs, last.stopped);
    }
  }

  /** The table holds, for each output, the ordinal and the sense of the last write that named it. */
  lemma {:induction false} TableFollowsLog(log: seq<Entry>, o: string)
    ensures match LastNamed(log, o)
            case None => o !in After(log)
            case Some(j) => o in After(log) && After(log)[o] == Intent(Count(log[..j + 1]), log[j].stopped)
    decreases |log|
  {
    if log != [] {
      var n := |log| - 1;
      var before, last := log[..n], log[n];
      assert After(log) == Written(After(before), last.outputs, last.stopped);
      if o in last.outputs {
        HighestIsCount(before);
        assert log[..n + 1] == log && Count(log) == Count(before) + 1;
        assert LastNamed(log, o) == Some(n);
      } else {
        TableFollowsLog(before, o);
        var earlier := LastNamed(before, o);
        assert LastNamed(log, o) == earlier;
        assert Get(After(log), o) == Get(After(before), o);
        if earlier.Some? {
          assert before[..earlier.value + 1] == log[..earlier.value + 1] && before[earlier.value] == log[earlier.value];
        }
      }
    }
  }

  /** Writes that name something store a strictly higher epoch than any before. */
  lemma EpochAfterWrite(m: Intents, outputs: seq<string>, stopped: bool)
    ensures MaxEpoch(Written(m, outputs, stopped)) == MaxEpoch(m) + if outputs == [] then 0 else 1
    ensures forall o, k :: o in outputs && k in m ==> Written(m, outputs, stopped)[o].epoch > m[k].epoch
  {
    var m1 := Written(m, outputs, stopped);
    if outputs == [] {
      assert m1 == m;
    } else {
      assert outputs[0] in m1 && m1[outputs[0]].epoch == MaxEpoch(m) + 1;
      assert forall k :: k in m1 ==> m1[k].epoch <= MaxEpoch(m) + 1;
    }
  }

  /** Epochs stored by two nonempty writes are ordered like the writes. */
  lemma EpochsOrderWrites(log: seq<Entry>, i: nat, j: nat)
    requires i < |log| && j < |log| && log[i].outputs != [] && log[j].outputs != []
    ensures Count(log[..i + 1]) < Count(log[..j + 1]) <==> i < j
  {
    if i < j {
      assert log[..j + 1][..i + 1] == log[..i + 1] && log[..j + 1][j] == log[j];
      CountGrows(log[..j + 1], i + 1);
    } else {
      assert log[..i + 1][..j + 1] == log[..j + 1];
      CountGrows(log[..i + 1], j + 1);
    }
  }

  /** A stop-all is in force for an output last named before it, or never named. */
  ghost predicate StoppedByAll(log: seq<Entry>, o: string) {
    exists g :: LastNaming(log, g, EVERYTHING) && log[g].stopped && forall k :: g <= k < |log| ==> o !in log[k].outputs
  }

  ghost predicate StoppedByName(log: seq<Entry>, o: string) {
    exists j :: LastNaming(log, j, o) && log[j].stopped
  }

  /** For every log of accepted writes: the rule says stopped exactly when the log does. */
  lemma StoppedExactly(log: seq<Entry>, o: string)
    ensures IsStopped(After(log), o) <==> StoppedByName(log, o) || StoppedByAll(log, o)
  {
    TableFollowsLog(log, o);
    TableFollowsLog(log, EVERYTHING);
    var own, all := LastNamed(log, o), LastNamed(log, EVERYTHING);
    if all.Some? {
      OrdinalPositive(log, all.value);
      if own.Some? {
        EpochsOrderWrites(log, own.value, all.value);
      }
    }
    ByNameOrByAll(log, o);
  }

  lemma ByNameOrByAll(log: seq<Entry>, o: string)
    ensures StoppedByName(log, o) <==> LastNamed(log, o).Some? && log[LastNamed(log, o).value].stopped
    ensures (StoppedByAll(log, o) <==>
             && LastNamed(log, EVERYTHING).Some? && log[LastNamed(log, EVERYTHING).value].stopped
             && (LastNamed(log, o).Some? ==> LastNamed(log, o).value < LastNamed(log, EVERYTHING).value))
  {
    var own, all := LastNamed(log, o), LastNamed(log, EVERYTHING);
    if own.Some? {
      assert LastNaming(log, own.value, o);
    }
    if all.Some? {
      assert LastNaming(log, all.value, EVERYTHING);
    }
  }

  lemma OrdinalPositive(log: seq<Entry>, j: nat)
    requires j < |log| && log[j].outputs != []
    ensures Count(log[..j + 1]) > 0
  {
    assert log[..j + 1][|log[..j + 1]| - 1] == log[j];
  }

  /** The write applies to the output: it names it, or it names every output. */
  predicate Covers(e: Entry, o: string) {
    o in e.outputs || EVERYTHING in e.outputs
  }

  ghost predicate NoStartOfEverything(log: seq<Entry>) {
    forall e :: e in log && EVERYTHING in e.outputs ==> e.stopped
  }

  ghost predicate LastCovering(log: seq<Entry>, j: int, o: string) {
    0 <= j < |log| && Covers(log[j], o) && forall k :: j < k < |log| ==> !Covers(log[k], o)
  }

  /**
   * As long as no start is written for "every output", an output is stopped exactly when the last
   * write that covered it was a stop.
   */
  lemma StoppedIffLastCoveringStops(log: seq<Entry>, o: string)
    requires NoStartOfEverything(log)
    ensures IsStopped(After(log), o) <==> exists j :: LastCovering(log, j, o) && log[j].stopped
  {
    StoppedExactly(log, o);
    var own, all := LastNamed(log, o), LastNamed(log, EVERYTHING);
    if all.Some? {
      assert log[all.value] in log && log[all.value].stopped;
      if own.None? || own.value <= all.value {
        assert LastCovering(log, all.value, o);
        if own.None? || own.value < all.value {
          assert StoppedByAll(log, o);
        }
      } else {
        assert LastCovering(log, own.value, o);
      }
    } else if own.Some? {
      assert LastCovering(log, own.value, o);
    }
  }

  /** A start recorded for "every output" would not undo a stop by name. */
  lemma StartOfEverythingKeepsNamedStops()
    ensures var log := [Entry(["A"], true), Entry([EVERYTHING], false)];
            IsStopped(After(log), "A") && LastCovering(log, 1, "A") && !log[1].stopped
  {
    var log := [Entry(["A"], true), Entry([EVERYTHING], false)];
    assert "A"[0] != EVERYTHING[0];
    assert "A" !in log[1].outputs;
    assert LastNaming(log, 0, "A");
    StoppedExactly(log, "A");
  }
}
