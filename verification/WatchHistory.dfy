/** Where an armed, a waiting or a scheduled output comes from, read off the rounds of the watcher. */
module WatchHistory {
  import opened Prelude
  import opened DisplayState
  import opened RecoveryTracking
  import opened SessionIntents

  type Assignments = map<string, Assignment>

  /** What one round saw; only enabled outputs that are not stopped are ever confirmed. */
  datatype Seen = Seen(enabled: set<string>, confirmed: set<string>, saved: Assignments, intents: Intents)

  /** The epoch of the last stop of everything, 0 when it does not stand. */
  function GlobalEpoch(m: Intents): nat {
    if EVERYTHING in m && m[EVERYTHING].stopped then m[EVERYTHING].epoch else 0
  }

  /** It is what the rule compares with: an output without an intent of its own is stopped while it stands. */
  lemma EpochDecides(m: Intents, o: string)
    ensures IsStopped(m, o) <==> if o in m then m[o].stopped || m[o].epoch < GlobalEpoch(m) else 0 < GlobalEpoch(m)
  {
  }

  /** The epoch last seen in the output's own stop intent. */
  function Known(past: seq<Seen>, o: string): Option<nat> {
    if past == [] then None
    else
      var last := past[|past| - 1];
      if o in last.intents then Some(last.intents[o].epoch) else Known(past[..|past| - 1], o)
  }

  /** In round `j` the output's own intent is not the one seen last. */
  predicate Rewritten(past: seq<Seen>, j: nat, o: string)
    requires j < |past|
  {
    && o in past[j].intents && Known(past[..j], o).Some?
    && Known(past[..j], o) != Some(past[j].intents[o].epoch)
  }

  predicate Unaffected(past: seq<Seen>, j: nat, o: string)
    requires j < |past|
  {
    !IsStopped(past[j].intents, o) && !Rewritten(past, j, o)
  }

  /** No stop holds for the output after round `i`, and its intent is not rewritten. */
  ghost predicate Quiet(past: seq<Seen>, i: nat, o: string) {
    forall j :: i < j < |past| ==> Unaffected(past, j, o)
  }

  ghost predicate EnabledIn(past: seq<Seen>, i: nat, d: nat, o: string)
    requires d <= |past|
  {
    forall j :: i <= j < d ==> o in past[j].enabled
  }

  ghost predicate AbsentIn(past: seq<Seen>, d: nat, n: nat, o: string)
    requires n <= |past|
  {
    forall j :: d <= j < n ==> o !in past[j].enabled
  }

  /** Round `i` saw the output show its saved assignment; nothing has been against it since. */
  ghost predicate ConfirmedIn(past: seq<Seen>, i: nat, o: string, a: Assignment) {
    i < |past| && o in past[i].confirmed && Get(past[i].saved, o) == Some(a) && Quiet(past, i, o)
  }

  /** Confirmed in round `i` and enabled ever since. */
  ghost predicate ArmedFrom(past: seq<Seen>, i: nat, o: string, a: Assignment) {
    ConfirmedIn(past, i, o, a) && EnabledIn(past, i, |past|, o)
  }

  /** Confirmed in round `i`, enabled until round `d`, and away ever since. */
  ghost predicate WaitingFrom(past: seq<Seen>, i: nat, d: nat, o: string, a: Assignment) {
    && i < d < |past| && ConfirmedIn(past, i, o, a)
    && EnabledIn(past, i, d, o) && AbsentIn(past, d, |past|, o)
  }

  /** The same while the last round is being dealt with: the output may just be back. */
  ghost predicate AwaitedFrom(past: seq<Seen>, i: nat, d: nat, o: string, a: Assignment) {
    && i < d < |past| && ConfirmedIn(past, i, o, a)
    && EnabledIn(past, i, d, o) && AbsentIn(past, d, |past| - 1, o)
    && (d == |past| - 1 ==> o !in past[d].enabled)
  }

  /**
   * Confirmed in round `i`, enabled until round `d`, away until it came back in round `r`, and since then
   * enabled with the very assignment it was confirmed with still saved.
   */
  ghost predicate ScheduledFrom(past: seq<Seen>, i: nat, d: nat, r: nat, o: string, a: Assignment) {
    && i < d < r < |past| && ConfirmedIn(past, i, o, a)
    && EnabledIn(past, i, d, o) && AbsentIn(past, d, r, o)
    && EnabledIn(past, r, |past|, o) && forall j :: r <= j < |past| ==> Get(past[j].saved, o) == Some(a)
  }

  // ---------------------------------------------------------------- who must come back

  /** No stop of everything has been written, or withdrawn, since round `i`. */
  ghost predicate OneEpoch(past: seq<Seen>, i: nat)
    requires i < |past|
  {
    forall j :: i <= j < |past| ==> GlobalEpoch(past[j].intents) == GlobalEpoch(past[i].intents)
  }

  /** Confirmed with its saved assignment in the round before `d`, away ever since; nothing has been against it. */
  ghost predicate LeftWith(past: seq<Seen>, d: nat, o: string, a: Assignment) {
    && 0 < d < |past| && o in past[d - 1].enabled && o in past[d - 1].confirmed && Get(past[d - 1].saved, o) == Some(a)
    && AbsentIn(past, d, |past|, o) && Quiet(past, d - 1, o) && OneEpoch(past, d - 1)
  }

  /** Away since round `d`, it is back in the last round, with the same assignment, and nothing is against it. */
  ghost predicate ComesBack(past: seq<Seen>, d: nat, o: string, a: Assignment) {
    && 0 < d < |past| && LeftWith(past[..|past| - 1], d, o, a)
    && o in past[|past| - 1].enabled && Get(past[|past| - 1].saved, o) == Some(a)
    && Unaffected(past, |past| - 1, o) && OneEpoch(past, d - 1)
  }

  /** The last round still wants the output restored like that, as the round before it did. */
  ghost predicate StillWants(past: seq<Seen>, o: string, a: Assignment) {
    && |past| >= 2 && o in past[|past| - 1].enabled && Get(past[|past| - 1].saved, o) == Some(a)
    && Unaffected(past, |past| - 1, o) && OneEpoch(past, |past| - 2)
  }

  /** Everything that was confirmed last is armed, and whatever left like that waits. */
  ghost predicate Remembers(past: seq<Seen>, s: State, lost: set<string>, show: nat -> string) {
    && (past != [] ==>
          var last := past[|past| - 1];
          && s.stopEpoch == show(GlobalEpoch(last.intents))
          && forall o :: o in last.confirmed && o in last.saved ==> Get(s.armed, o) == Some(last.saved[o]))
    && forall d: nat, o: string, a: Assignment :: LeftWith(past, d, o, a) && o !in lost ==> Get(s.pending, o) == Some(a)
  }

  /** Taking stops, renames and rewritten intents into account loses nothing that they are not against. */
  ghost predicate KeepsWaiting(s: State, t: State, all: seq<Seen>, lost: set<string>) {
    && all != []
    && var x := all[|all| - 1];
       forall o :: o !in lost && Unaffected(all, |all| - 1, o) ==>
         if o in s.armed && o in s.enabled && o !in x.enabled then
           Get(t.pending, o) == Some(s.armed[o]) && o !in t.armed
         else
           o in s.pending ==> Get(t.pending, o) == Some(s.pending[o])
  }

  lemma LeftNext(past: seq<Seen>, x: Seen, d: nat, o: string, a: Assignment)
    requires LeftWith(past + [x], d, o, a)
    ensures Unaffected(past + [x], |past|, o) && o !in x.enabled
    ensures GlobalEpoch(x.intents) == GlobalEpoch(past[|past| - 1].intents)
    ensures d < |past| ==> LeftWith(past, d, o, a)
  {
    var all := past + [x];
    assert GlobalEpoch(all[|past|].intents) == GlobalEpoch(all[|past| - 1].intents);
    forall j | d - 1 < j < |past| ensures Unaffected(past, j, o) {
      assert all[..j] == past[..j] && all[j] == past[j] && Unaffected(all, j, o);
    }
    assert forall j :: d - 1 <= j < |past| ==> all[j] == past[j];
  }

  /** What is armed, waits and comes back after one more round. */
  lemma OneMoreRound(past: seq<Seen>, x: Seen, s: State, t: State, lost: set<string>, show: nat -> string)
    requires s.enabled == EnabledLast(past) && Remembers(past, s, lost, show) && KeepsWaiting(s, t, past + [x], lost)
    requires t.enabled == s.enabled && t.stopEpoch == s.stopEpoch
    ensures var r := Round(x.enabled, x.saved, x.confirmed, show(GlobalEpoch(x.intents)));
            && Remembers(past + [x], Advanced(t, r), lost, show)
            && forall d: nat, o: string, a: Assignment :: ComesBack(past + [x], d, o, a) && o !in lost ==>
                 Get(Returned(t, r), o) == Some(a)
  {
    var all, r := past + [x], Round(x.enabled, x.saved, x.confirmed, show(GlobalEpoch(x.intents)));
    forall o | o in x.confirmed && o in x.saved ensures Get(Advanced(t, r).armed, o) == Some(x.saved[o]) {
      AdvancedFields(t, r, o);
    }
    forall d: nat, o: string, a: Assignment | LeftWith(all, d, o, a) && o !in lost
      ensures Get(Advanced(t, r).pending, o) == Some(a)
    {
      LeftNext(past, x, d, o, a);
      AdvancedFields(t, r, o);
      if d < |past| {
        assert o !in past[|past| - 1].enabled;
      } else {
        assert all[d - 1] == past[|past| - 1];
      }
    }
    forall d: nat, o: string, a: Assignment | ComesBack(all, d, o, a) && o !in lost
      ensures Get(Returned(t, r), o) == Some(a)
    {
      assert all[..|past|] == past && LeftWith(past, d, o, a);
      assert GlobalEpoch(all[|past|].intents) == GlobalEpoch(all[d - 1].intents) && all[d - 1] == past[d - 1];
      assert GlobalEpoch(past[|past| - 1].intents) == GlobalEpoch(past[d - 1].intents);
      assert o !in past[|past| - 1].enabled;
      ReturnedFields(t, r, o);
    }
  }

  // ---------------------------------------------------------------- one more round

  lemma QuietNext(past: seq<Seen>, x: Seen, i: nat, o: string)
    requires i < |past| && Quiet(past, i, o) && Unaffected(past + [x], |past|, o)
    ensures Quiet(past + [x], i, o)
  {
    forall j | i < j < |past| + 1 ensures Unaffected(past + [x], j, o) {
      if j < |past| {
        assert (past + [x])[..j] == past[..j] && (past + [x])[j] == past[j] && Unaffected(past, j, o);
      }
    }
  }

  lemma ArmedNext(past: seq<Seen>, x: Seen, i: nat, o: string, a: Assignment)
    requires ArmedFrom(past, i, o, a) && Unaffected(past + [x], |past|, o)
    ensures o in x.enabled ==> ArmedFrom(past + [x], i, o, a)
    ensures o !in x.enabled ==> AwaitedFrom(past + [x], i, |past|, o, a)
  {
    QuietNext(past, x, i, o);
  }

  lemma AbsentNext(past: seq<Seen>, x: Seen, i: nat, d: nat, o: string, a: Assignment)
    requires WaitingFrom(past, i, d, o, a) && Unaffected(past + [x], |past|, o)
    ensures AwaitedFrom(past + [x], i, d, o, a)
  {
    QuietNext(past, x, i, o);
  }

  lemma ScheduledNext(past: seq<Seen>, x: Seen, i: nat, d: nat, r: nat, o: string, a: Assignment)
    requires ScheduledFrom(past, i, d, r, o, a) && Unaffected(past + [x], |past|, o)
    requires o in x.enabled && Get(x.saved, o) == Some(a)
    ensures ScheduledFrom(past + [x], i, d, r, o, a)
  {
    QuietNext(past, x, i, o);
  }

  // ---------------------------------------------------------------- the watcher's tables

  ghost predicate ArmedTraced(past: seq<Seen>, m: Assignments, moved: set<string>) {
    forall o :: o in m && o !in moved ==> exists i :: ArmedFrom(past, i, o, m[o])
  }

  ghost predicate WaitingTraced(past: seq<Seen>, m: Assignments, moved: set<string>) {
    forall o :: o in m && o !in moved ==> exists i, d :: WaitingFrom(past, i, d, o, m[o])
  }

  ghost predicate AwaitedTraced(past: seq<Seen>, m: Assignments, moved: set<string>) {
    forall o :: o in m && o !in moved ==> exists i, d :: AwaitedFrom(past, i, d, o, m[o])
  }

  ghost predicate ScheduledTraced(past: seq<Seen>, m: Assignments, moved: set<string>) {
    forall o :: o in m && o !in moved ==> exists i, d, r :: ScheduledFrom(past, i, d, r, o, m[o])
  }

  function EnabledLast(past: seq<Seen>): set<string> {
    if past == [] then {} else past[|past| - 1].enabled
  }

  /** Every entry of `now` was there before, with the same assignment, and nothing is against it. */
  ghost predicate KeptUnaffected(before: Assignments, now: Assignments, all: seq<Seen>) {
    all != [] && forall o :: o in now ==> Get(before, o) == Some(now[o]) && Unaffected(all, |all| - 1, o)
  }

  /** What is left after stops, renames and rewritten intents have been taken into account. */
  ghost predicate Pruned(s: State, t: State, all: seq<Seen>, moved: set<string>) {
    && all != [] && t.enabled == s.enabled && t.stopEpoch == s.stopEpoch && KeptUnaffected(s.armed, t.armed, all)
    && var enabled := all[|all| - 1].enabled;
       && (forall o :: o in t.armed && o in s.enabled ==> o in enabled)
       && forall o :: o in t.pending && o !in moved ==>
            && Unaffected(all, |all| - 1, o)
            && (|| Get(s.pending, o) == Some(t.pending[o])
                || (Get(s.armed, o) == Some(t.pending[o]) && o !in enabled))
  }

  lemma PrunedIsTraced(past: seq<Seen>, x: Seen, s: State, t: State, moved: set<string>)
    requires s.enabled == EnabledLast(past) && Pruned(s, t, past + [x], moved)
    requires ArmedTraced(past, s.armed, moved) && WaitingTraced(past, s.pending, moved)
    ensures ArmedTraced(past + [x], t.armed, moved) && AwaitedTraced(past + [x], t.pending, moved)
  {
    var all := past + [x];
    forall o | o in t.armed && o !in moved ensures exists i :: ArmedFrom(all, i, o, t.armed[o]) {
      var i :| ArmedFrom(past, i, o, s.armed[o]);
      assert o in past[|past| - 1].enabled;
      ArmedNext(past, x, i, o, s.armed[o]);
    }
    forall o | o in t.pending && o !in moved ensures exists i, d :: AwaitedFrom(all, i, d, o, t.pending[o]) {
      if Get(s.pending, o) == Some(t.pending[o]) {
        var i, d :| WaitingFrom(past, i, d, o, t.pending[o]);
        AbsentNext(past, x, i, d, o, t.pending[o]);
      } else {
        var i :| ArmedFrom(past, i, o, t.pending[o]);
        ArmedNext(past, x, i, o, t.pending[o]);
      }
    }
  }

  /** One advance of the tracker on traced tables. */
  lemma AdvanceIsTraced(past: seq<Seen>, x: Seen, t: State, epoch: string, moved: set<string>)
    requires t.enabled == EnabledLast(past) && x.confirmed <= x.enabled
    requires ArmedTraced(past + [x], t.armed, moved) && AwaitedTraced(past + [x], t.pending, moved)
    ensures var r := Round(x.enabled, x.saved, x.confirmed, epoch);
            && ArmedTraced(past + [x], Advanced(t, r).armed, moved)
            && WaitingTraced(past + [x], Advanced(t, r).pending, moved)
            && ScheduledTraced(past + [x], Returned(t, r), moved)
  {
    var all, r := past + [x], Round(x.enabled, x.saved, x.confirmed, epoch);
    var u := Advanced(t, r);
    forall o | o in u.armed && o !in moved ensures exists i :: ArmedFrom(all, i, o, u.armed[o]) {
      AdvancedFields(t, r, o);
      if o in x.saved {
        assert ArmedFrom(all, |past|, o, x.saved[o]);
      }
    }
    forall o | o in u.pending && o !in moved ensures exists i, d :: WaitingFrom(all, i, d, o, u.pending[o]) {
      AdvancedFields(t, r, o);
      ArmedIsEnabled(past, x, t, moved, o);
      var i, d :| AwaitedFrom(all, i, d, o, u.pending[o]);
      BackOnlyOnce(past, x, i, d, o, u.pending[o]);
      assert WaitingFrom(all, i, d, o, u.pending[o]);
    }
    forall o | o in Returned(t, r) && o !in moved
      ensures exists i, d, k :: ScheduledFrom(all, i, d, k, o, Returned(t, r)[o])
    {
      ArmedIsEnabled(past, x, t, moved, o);
      var i, d :| AwaitedFrom(all, i, d, o, Returned(t, r)[o]);
      assert ScheduledFrom(all, i, d, |past|, o, Returned(t, r)[o]);
    }
  }

  lemma ArmedIsEnabled(past: seq<Seen>, x: Seen, t: State, moved: set<string>, o: string)
    requires ArmedTraced(past + [x], t.armed, moved) && o !in moved
    ensures o in t.armed ==> o in x.enabled
  {
    if o in t.armed {
      var i :| ArmedFrom(past + [x], i, o, t.armed[o]);
      assert o in (past + [x])[|past|].enabled;
    }
  }

  /** An awaited output that was enabled in the round before is not enabled now. */
  lemma BackOnlyOnce(past: seq<Seen>, x: Seen, i: nat, d: nat, o: string, a: Assignment)
    requires AwaitedFrom(past + [x], i, d, o, a)
    ensures o in EnabledLast(past) ==> o !in x.enabled
  {
    if d < |past| {
      assert (past + [x])[|past| - 1] == past[|past| - 1];
    }
  }
}
