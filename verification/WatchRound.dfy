/** One round of the recovery watcher between stop and start writes: what a stop keeps from coming back. */
module WatchRound {
  import opened Prelude
  import opened DisplayState
  import opened RecoveryTracking
  import opened SessionIntents
  import opened WatchHistory

  /** Waits in milliseconds: before the first attempt, and after each that failed for the moment. */
  const SETTLE_DELAY: nat := 300

  const RETRY_DELAYS: seq<nat> := [500, 1000, 2000, 4000, 8000]

  datatype Retry = Retry(assignment: Assignment, due: nat, attempt: nat)

  type Retries = map<string, Retry>

  function Forget<V>(m: map<string, V>, names: set<string>): map<string, V> {
    map o | o in m && o !in names :: m[o]
  }

  /** What no stop holds for. */
  function Unless(m: Assignments, intents: Intents): Assignments {
    map o | o in m && !IsStopped(intents, o) :: m[o]
  }

  /** What is scheduled, without the times. */
  function Plain(retries: Retries): Assignments {
    map o | o in retries :: retries[o].assignment
  }

  /**
   * What a round finds: the outputs, what is saved and observed of them, which of them the migration of
   * renamed connectors drops, and which take over the wait of another one under a version of their own;
   * the time, and which restorations will fail, for the moment (`true`) or for good.
   */
  datatype Facts = Facts(enabled: set<string>, saved: Assignments, observed: set<string>, gone: set<string>,
        renames: map<string, (string, string)>, now: nat, failing: map<string, bool>)

  /** What the round goes by; only enabled outputs are looked at, and stopped ones are never confirmed. */
  function SeenIn(facts: Facts, intents: Intents): Seen {
    var confirmed := set o | o in facts.observed && o in facts.enabled && !IsStopped(intents, o);
    Seen(facts.enabled, confirmed, facts.saved, intents)
  }

  /** The outputs whose own intent differs from the one seen last. */
  function Fresh(previous: map<string, nat>, intents: Intents): set<string> {
    set o | o in intents && o in previous && previous[o] != intents[o].epoch
  }

  predicate SamePreference(a: Assignment, b: Assignment) {
    a.backend == b.backend && a.path == b.path
  }

  /** A failed attempt is made again as long as there are delays left. */
  predicate Again(r: Retry, o: string, failing: map<string, bool>) {
    o in failing && failing[o] && r.attempt < |RETRY_DELAYS|
  }

  /** What is left of a restoration after a round: it stays until it is due, and then only to be tried again. */
  ghost function NextTry(o: string, r: Retry, facts: Facts): Option<Retry> {
    if r.due > facts.now then Some(r)
    else if Get(facts.failing, o) == Some(true) && r.attempt < 5 then
      Some(Retry(r.assignment, facts.now + Backoff(r.attempt), r.attempt + 1))
    else None
  }

  /** Half a second, and then twice as long each time. */
  ghost function Backoff(attempt: nat): nat {
    if attempt == 0 then 500 else 2 * Backoff(attempt - 1)
  }

  lemma DelaysDouble(attempt: nat)
    requires attempt < 5
    ensures |RETRY_DELAYS| == 5 && RETRY_DELAYS[attempt] == Backoff(attempt)
  {
    assert Backoff(0) == 500 && Backoff(1) == 1000 && Backoff(2) == 2000;
    assert Backoff(3) == 4000 && Backoff(4) == 8000;
  }

  /** A due restoration is started. */
  ghost predicate Tried(o: string, r: Retry, facts: Facts, attempted: set<string>, retries: Retries) {
    (o in attempted <==> r.due <= facts.now) && Get(retries, o) == NextTry(o, r, facts)
  }

  /** What is restored, unless a renamed connector took over another's wait, has come back as it was confirmed. */
  ghost predicate RestoresTraced(past: seq<Seen>, saved: Assignments, attempted: set<string>, moved: set<string>) {
    forall o :: o in attempted && o !in moved ==>
      o in saved && exists i, d, r :: ScheduledFrom(past, i, d, r, o, saved[o])
  }

  /** What must come back in the last round is scheduled. */
  ghost predicate ReturnsScheduled(past: seq<Seen>, retries: Retries, now: nat, lost: set<string>) {
    forall d: nat, o, a :: ComesBack(past, d, o, a) && o !in lost ==>
      Get(retries, o) == Some(Retry(a, now + 300, 0))
  }

  /** What was scheduled before and is still wanted is attempted when it is due. */
  ghost predicate ScheduledTried(past: seq<Seen>, before: Retries, facts: Facts, attempted: set<string>,
        retries: Retries, lost: set<string>) {
    forall o :: o in before && o !in lost && StillWants(past, o, before[o].assignment) ==>
      Tried(o, before[o], facts, attempted, retries)
  }

  class Watcher {
    const tracker: RecoveryTracker
    const show: nat -> string
    var retries: Retries
    var previousIntents: map<string, nat>

    /** What the rounds so far saw. */
    ghost var past: seq<Seen>

    /** The outputs that the migration of a renamed connector ever made wait, and those it dropped. */
    ghost var moved: set<string>
    ghost var dropped: set<string>

    /** `show` writes an epoch as text. */
    constructor (show: nat -> string)
      ensures fresh(tracker) && Traced() && past == [] && moved == {} && dropped == {} && this.show == show
    {
      tracker := new RecoveryTracker();
      this.show := show;
      retries, previousIntents, past, moved, dropped := map[], map[], [], {}, {};
    }

    /**
     * Everything armed, waiting or scheduled comes from where the rounds say; what they confirmed last is
     * armed, and what left like that waits.
     */
    ghost predicate Traced()
      reads this, tracker
    {
      && TracedAs(past, tracker.Now(), previousIntents, Plain(retries), moved)
      && Remembers(past, tracker.Now(), moved + dropped, show)
      && Orderly(retries, EnabledLast(past))
    }

    /** Nothing that waits for its output to come back is stopped. */
    ghost predicate Unstopped(intents: Intents)
      reads this, tracker
    {
      forall o :: o in tracker.armed || o in tracker.pending ==> !IsStopped(intents, o)
    }

    /**
     * One round. `intents` is the table after the writes in `log`; `attempted` are the restorations it
     * starts. Whatever state earlier rounds left, and whatever the migration of renamed connectors puts
     * among the pending outputs: an output the log says is stopped is not restored, and does not wait.
     * Over any run of rounds, an output restored was confirmed earlier with the assignment it gets, has
     * been away since it was last enabled then, and no round in between saw a stop or a rewritten intent.
     * Conversely, an output that went away as it was confirmed and comes back like that is scheduled, and
     * what is scheduled stays so until it is due and then is attempted, at most six times, unless
     * something is against it or the migration has meddled with the output.
     */
    method Round(intents: Intents, ghost log: seq<Entry>, facts: Facts) returns (attempted: set<string>)
      requires intents == SessionIntents.After(log)
      modifies this, tracker
      ensures attempted <= facts.enabled
      ensures forall o :: o in attempted || o in retries || o in tracker.pending ==>
                !StoppedByName(log, o) && !StoppedByAll(log, o)
      ensures NoStartOfEverything(log) ==> forall o, j :: o in attempted && LastCovering(log, j, o) ==> !log[j].stopped
      ensures past == old(past) + [SeenIn(facts, intents)] && (old(Traced()) ==> Traced())
      ensures dropped == old(dropped) + facts.gone && old(moved) <= moved <= old(moved) + facts.renames.Keys
      ensures old(Traced()) ==>
                && RestoresTraced(past, facts.saved, attempted, moved)
                && ReturnsScheduled(past, retries, facts.now, moved + dropped)
                && ScheduledTried(past, old(retries), facts, attempted, retries, moved + dropped)
    {
      ghost var s, scheduled, known, before := tracker.Now(), retries, previousIntents, past;
      ghost var x := SeenIn(facts, intents);
      var stopped := Prune(intents, facts);
      ghost var t, left := tracker.Now(), retries;
      past := past + [x];
      attempted := Recover(intents, stopped, facts);
      if old(Traced()) {
        RoundIsTraced(before, x, s, t, scheduled, left, retries, known, old(moved), moved, dropped, facts,
              show(GlobalEpoch(intents)), attempted);
        RoundRemembers(before, x, s, t, old(moved + dropped), moved + dropped, known, show);
        ghost var r := RecoveryTracking.Round(x.enabled, x.saved, x.confirmed, show(GlobalEpoch(intents)));
        ReturnedAreScheduled(before, x, t, r, moved + dropped, facts, left, retries, attempted);
        RoundTries(before, x, s, t, moved + dropped, known, dropped, show, facts, scheduled, left, retries, attempted);
      }
      StoppedByLog(log, attempted);
    }

    /** Takes the stop intents into account; returns the stopped ones among the outputs in question. */
    method Prune(intents: Intents, facts: Facts) returns (stopped: set<string>)
      modifies this`retries, this`previousIntents, this`moved, this`dropped, tracker`armed, tracker`pending
      ensures Unstopped(intents) && old(moved) <= moved <= old(moved) + facts.renames.Keys
      ensures dropped == old(dropped) + facts.gone
      ensures forall o :: o in facts.enabled ==> (o in stopped <==> IsStopped(intents, o))
      ensures LeftOver(old(tracker.Now()), tracker.Now(), intents, facts.enabled, moved,
                Fresh(old(previousIntents), intents))
      ensures Spares(old(tracker.Now()), tracker.Now(), intents, facts.enabled, moved + dropped,
                Fresh(old(previousIntents), intents))
      ensures LeftScheduled(old(retries), retries, dropped, Fresh(old(previousIntents), intents))
      ensures previousIntents == old(previousIntents) + map o | o in intents :: intents[o].epoch
    {
      ghost var s, rewritten := tracker.Now(), Fresh(previousIntents, intents);
      Settle(intents, facts);
      ghost var t := tracker.Now();
      var names := facts.enabled + tracker.pending.Keys + retries.Keys;
      DropRewritten(intents);
      stopped := set o | o in names && IsStopped(intents, o);
      tracker.armed, tracker.pending := Forget(tracker.armed, stopped), Forget(tracker.pending, stopped);
      RewrittenAreLeftOver(s, t, intents, facts.enabled, moved, rewritten, stopped);
      RewrittenSpares(s, t, intents, facts.enabled, moved + dropped, rewritten, stopped);
    }

    /** Drops what is stopped, lets outputs that went away wait, and migrates renamed connectors. */
    method Settle(intents: Intents, facts: Facts)
      modifies this`retries, this`moved, this`dropped, tracker`armed, tracker`pending
      ensures old(moved) <= moved <= old(moved) + facts.renames.Keys && dropped == old(dropped) + facts.gone
      ensures LeftOver(old(tracker.Now()), tracker.Now(), intents, facts.enabled, moved, {})
      ensures Spares(old(tracker.Now()), tracker.Now(), intents, facts.enabled, moved + dropped, {})
      ensures retries == Forget(old(retries), facts.gone)
    {
      ghost var s := tracker.Now();
      DropStopped(intents);
      ghost var d := tracker.Now();
      tracker.RememberDisconnected(facts.enabled);
      ghost var u := tracker.Now();
      Migrate(facts.gone, facts.renames);
      SettledIsLeftOver(s, d, u, tracker.Now(), intents, facts.enabled, facts.gone, moved);
      SettledSpares(s, d, u, tracker.Now(), intents, facts.enabled, facts.gone, moved, dropped);
    }

    /** Lets the tracker take the round and starts the restorations that are due. */
    method Recover(intents: Intents, stopped: set<string>, facts: Facts) returns (attempted: set<string>)
      requires Unstopped(intents)
      requires forall o :: o in facts.enabled ==> (o in stopped <==> IsStopped(intents, o))
      modifies this`retries, tracker
      ensures attempted <= facts.enabled
      ensures forall o :: o in attempted || o in retries || o in tracker.pending ==> !IsStopped(intents, o)
      ensures var x := SeenIn(facts, intents);
              var r := RecoveryTracking.Round(x.enabled, x.saved, x.confirmed, show(GlobalEpoch(intents)));
              && tracker.Now() == Advanced(old(tracker.Now()), r)
              && Started(x, old(tracker.Now()), r, facts, old(retries), retries, attempted)
    {
      ghost var x, t, left := SeenIn(facts, intents), tracker.Now(), retries;
      var epoch := show(GlobalEpoch(intents));
      var round := RecoveryTracking.Round(facts.enabled, facts.saved, facts.observed * facts.enabled - stopped, epoch);
      assert round.confirmed == x.confirmed;
      AdvancedKeys(t, round);
      Gather(round, stopped, facts.now);
      ghost var wanted := retries;
      attempted := Attempt(facts);
      GatheredIsDue(x, t, round, facts, left, stopped, wanted, retries, attempted);
    }

    /** Lets the tracker take the round and schedules what it returns; keeps what is still wanted. */
    method Gather(round: RecoveryTracking.Round, stopped: set<string>, now: nat)
      modifies this`retries, tracker
      ensures tracker.Now() == Advanced(old(tracker.Now()), round)
      ensures forall o :: Get(retries, o)
                       == StillWanted(Candidate(old(tracker.Now()), round, old(retries), o, now), round, stopped, o)
    {
      ghost var t := tracker.Now();
      if round.epoch != tracker.stopEpoch {
        retries := map[];
      }
      ghost var kept := retries;
      var restore := tracker.Advance(round, None);
      Schedule(restore, now);
      ScheduledAsReturned(kept, retries, restore, Returned(t, round), now);
      retries := map o | o in retries && o !in stopped && o in round.enabled
          && Get(round.saved, o) == Some(retries[o].assignment) :: retries[o];
    }

    /** First thing in a round: nothing stopped stays armed or pending. */
    method DropStopped(intents: Intents)
      modifies tracker`armed, tracker`pending
      ensures tracker.armed == Unless(old(tracker.armed), intents)
      ensures tracker.pending == Unless(old(tracker.pending), intents)
    {
      tracker.armed := map o | o in tracker.armed && !IsStopped(intents, o) :: tracker.armed[o];
      tracker.pending := map o | o in tracker.pending && !IsStopped(intents, o) :: tracker.pending[o];
    }

    /**
     * Stands for the migration of renamed connectors: some outputs are dropped, and some take over what
     * another one was waiting for, under a version of their own.
     */
    method Migrate(gone: set<string>, renames: map<string, (string, string)>)
      modifies this`retries, this`moved, this`dropped, tracker`armed, tracker`pending
      ensures old(moved) <= moved <= old(moved) + renames.Keys && dropped == old(dropped) + gone
      ensures Migrated(old(tracker.Now()), tracker.Now(), gone, moved) && retries == Forget(old(retries), gone)
      ensures forall o :: o in renames && renames[o].0 in old(tracker.pending) ==>
                o in moved && Get(tracker.pending, o)
                           == Some(old(tracker.pending)[renames[o].0].(version := renames[o].1))
      ensures forall o :: o in tracker.pending ==>
                exists p :: p in old(tracker.pending) && SamePreference(tracker.pending[o], old(tracker.pending)[p])
    {
      var taken := map o | o in renames && renames[o].0 in tracker.pending
          :: tracker.pending[renames[o].0].(version := renames[o].1);
      moved, dropped := moved + taken.Keys, dropped + gone;
      tracker.armed, retries := Forget(tracker.armed, gone), Forget(retries, gone);
      tracker.pending := Forget(tracker.pending, gone) + taken;
    }

    /** Outputs whose intent was rewritten since the last round are forgotten. */
    method DropRewritten(intents: Intents)
      modifies this`retries, this`previousIntents, tracker`armed, tracker`pending
      ensures tracker.armed == Forget(old(tracker.armed), Fresh(old(previousIntents), intents))
      ensures tracker.pending == Forget(old(tracker.pending), Fresh(old(previousIntents), intents))
      ensures retries == Forget(old(retries), Fresh(old(previousIntents), intents))
      ensures previousIntents == old(previousIntents) + map o | o in intents :: intents[o].epoch
    {
      var rewritten := Fresh(previousIntents, intents);
      tracker.armed, tracker.pending := Forget(tracker.armed, rewritten), Forget(tracker.pending, rewritten);
      retries := Forget(retries, rewritten);
      previousIntents := previousIntents + map o | o in intents :: intents[o].epoch;
    }

    /** Each returned output is scheduled anew, to be attempted once it has settled. */
    method Schedule(restore: seq<(string, Assignment)>, now: nat)
      requires forall i, j :: 0 <= i < j < |restore| ==> restore[i].0 != restore[j].0
      modifies this`retries
      ensures forall p :: p in restore ==> Get(retries, p.0) == Some(Retry(p.1, now + SETTLE_DELAY, 0))
      ensures forall o :: (forall a :: (o, a) !in restore) ==> Get(retries, o) == Get(old(retries), o)
    {
      for i := 0 to |restore|
        invariant forall j :: 0 <= j < i ==>
                    Get(retries, restore[j].0) == Some(Retry(restore[j].1, now + SETTLE_DELAY, 0))
        invariant forall o :: (forall a :: (o, a) !in restore[..i]) ==> Get(retries, o) == Get(old(retries), o)
        modifies this`retries
      {
        assert restore[..i + 1] == restore[..i] + [restore[i]];
        assert restore[i] == (restore[i].0, restore[i].1) && restore[i] in restore[..i + 1];
        retries := retries[restore[i].0 := Retry(restore[i].1, now + SETTLE_DELAY, 0)];
      }
      assert restore[..|restore|] == restore;
    }

    /** Starts what is due; what fails for the moment is scheduled again, later and later, five times at most. */
    method Attempt(facts: Facts) returns (attempted: set<string>)
      modifies this`retries
      ensures attempted <= old(retries).Keys && forall o :: o in retries ==> o in old(retries)
      ensures forall o :: o in old(retries) ==> Tried(o, old(retries)[o], facts, attempted, retries)
    {
      ghost var before := retries;
      attempted := set o | o in retries && retries[o].due <= facts.now;
      var rest := attempted;
      while rest != {}
        invariant rest <= attempted && retries.Keys <= before.Keys
        invariant forall o :: o in rest ==> Get(retries, o) == Some(before[o])
        invariant forall o :: o in before && o !in rest ==> Get(retries, o) == NextTry(o, before[o], facts)
        modifies this`retries
        decreases rest
      {
        var output :| output in rest;
        assert Get(retries, output) == Some(before[output]);
        var retry, others := retries[output], retries - {output};
        retries := others;
        if retry.attempt < 5 {
          DelaysDouble(retry.attempt);
        }
        if Again(retry, output, facts.failing) {
          var due := facts.now + RETRY_DELAYS[retry.attempt];
          retries := others[output := Retry(retry.assignment, due, retry.attempt + 1)];
        }
        assert Get(retries, output) == NextTry(output, retry, facts);
        assert forall o :: o != output ==> Get(retries, o) == Get(others, o);
        rest := rest - {output};
      }
    }
  }

  /** No restoration is attempted more often than there are delays, and once more. */
  ghost predicate Counted(retries: Retries) {
    forall o :: o in retries ==> retries[o].attempt <= |RETRY_DELAYS|
  }

  ghost predicate Orderly(retries: Retries, enabled: set<string>) {
    Counted(retries) && forall o :: o in retries ==> o in enabled
  }

  /** Only what is due is restored or kept, and all of it. */
  ghost predicate Started(x: Seen, t: State, r: RecoveryTracking.Round, facts: Facts, left: Retries, retries: Retries,
        attempted: set<string>) {
    && (forall o :: o in retries || o in attempted ==> StillDue(x, t, r, Plain(left), o))
    && StartsWhatIsDue(x, t, r, facts, left, retries, attempted)
    && (forall o :: o in retries ==> Get(x.saved, o) == Some(retries[o].assignment))
    && (Counted(left) ==> Counted(retries))
  }

  /** What may be scheduled for an output: what was returned just now, or what was before in the same epoch. */
  ghost function Candidate(t: State, r: RecoveryTracking.Round, left: Retries, o: string, now: nat): Option<Retry> {
    if o in Returned(t, r) then Some(Retry(Returned(t, r)[o], now + SETTLE_DELAY, 0))
    else if t.stopEpoch == r.epoch then Get(left, o)
    else None
  }

  ghost function StillWanted(c: Option<Retry>, r: RecoveryTracking.Round, stopped: set<string>,
        o: string): Option<Retry> {
    if c.Some? && o !in stopped && o in r.enabled && Get(r.saved, o) == Some(c.value.assignment) then c else None
  }

  lemma GatheredIsDue(x: Seen, t: State, r: RecoveryTracking.Round, facts: Facts, left: Retries,
        stopped: set<string>, wanted: Retries, retries: Retries, attempted: set<string>)
    requires x.enabled == r.enabled == facts.enabled && x.saved == r.saved == facts.saved
    requires forall o :: o in x.enabled ==> (o in stopped <==> IsStopped(x.intents, o))
    requires forall o :: Get(wanted, o) == StillWanted(Candidate(t, r, left, o, facts.now), r, stopped, o)
    requires attempted <= wanted.Keys && forall o :: o in retries ==> o in wanted
    requires forall o :: o in wanted ==> Tried(o, wanted[o], facts, attempted, retries)
    ensures Started(x, t, r, facts, left, retries, attempted)
  {
    forall o | o in wanted
      ensures Get(x.saved, o) == Some(wanted[o].assignment) && StillDue(x, t, r, Plain(left), o)
      ensures Counted(left) ==> wanted[o].attempt <= |RETRY_DELAYS|
    {
      WantedIsDue(x, t, r, left, stopped, o, wanted[o], facts.now);
    }
    forall o | o in retries
      ensures retries[o].assignment == wanted[o].assignment
      ensures wanted[o].attempt <= |RETRY_DELAYS| ==> retries[o].attempt <= |RETRY_DELAYS|
    {
      assert Tried(o, wanted[o], facts, attempted, retries) && NextTry(o, wanted[o], facts) == Some(retries[o]);
    }
    GatheredStarts(x, t, r, facts, left, stopped, wanted, retries, attempted);
  }

  lemma WantedIsDue(x: Seen, t: State, r: RecoveryTracking.Round, left: Retries, stopped: set<string>, o: string,
        wanted: Retry, now: nat)
    requires x.enabled == r.enabled && x.saved == r.saved
    requires o in x.enabled ==> (o in stopped <==> IsStopped(x.intents, o))
    requires StillWanted(Candidate(t, r, left, o, now), r, stopped, o) == Some(wanted)
    ensures Get(x.saved, o) == Some(wanted.assignment) && StillDue(x, t, r, Plain(left), o)
    ensures Counted(left) ==> wanted.attempt <= |RETRY_DELAYS|
  {
  }

  lemma GatheredStarts(x: Seen, t: State, r: RecoveryTracking.Round, facts: Facts, left: Retries,
        stopped: set<string>, wanted: Retries, retries: Retries, attempted: set<string>)
    requires x.enabled == r.enabled && x.saved == r.saved
    requires forall o :: o in x.enabled ==> (o in stopped <==> IsStopped(x.intents, o))
    requires forall o :: Get(wanted, o) == StillWanted(Candidate(t, r, left, o, facts.now), r, stopped, o)
    requires forall o :: o in wanted ==> Tried(o, wanted[o], facts, attempted, retries)
    ensures StartsWhatIsDue(x, t, r, facts, left, retries, attempted)
  {
    forall o | o in Returned(t, r) && !IsStopped(x.intents, o)
      ensures Get(retries, o) == Some(Retry(Returned(t, r)[o], facts.now + SETTLE_DELAY, 0))
    {
      assert Get(wanted, o) == Candidate(t, r, left, o, facts.now);
    }
    forall o | o in left && o !in Returned(t, r) && !IsStopped(x.intents, o) && t.stopEpoch == r.epoch
          && o in x.enabled && Get(x.saved, o) == Some(left[o].assignment)
      ensures Tried(o, left[o], facts, attempted, retries)
    {
      assert Get(wanted, o) == Some(left[o]);
    }
  }

  lemma ScheduledAsReturned(kept: Retries, scheduled: Retries, restore: seq<(string, Assignment)>,
        returned: Assignments, now: nat)
    requires forall o, a :: (o, a) in restore <==> Get(returned, o) == Some(a)
    requires forall p :: p in restore ==> Get(scheduled, p.0) == Some(Retry(p.1, now + SETTLE_DELAY, 0))
    requires forall o :: (forall a :: (o, a) !in restore) ==> Get(scheduled, o) == Get(kept, o)
    ensures forall o :: Get(scheduled, o)
                     == if o in returned then Some(Retry(returned[o], now + SETTLE_DELAY, 0)) else Get(kept, o)
  {
    forall o ensures Get(scheduled, o)
                     == if o in returned then Some(Retry(returned[o], now + SETTLE_DELAY, 0)) else Get(kept, o)
    {
      if o in returned {
        assert (o, returned[o]) in restore && (o, returned[o]).0 == o;
      }
    }
  }

  /** What was returned now is scheduled; what was scheduled before and is still wanted is tried when due. */
  ghost predicate StartsWhatIsDue(x: Seen, t: State, r: RecoveryTracking.Round, facts: Facts, left: Retries,
        retries: Retries, attempted: set<string>) {
    && (forall o :: o in Returned(t, r) && !IsStopped(x.intents, o) ==>
          Get(retries, o) == Some(Retry(Returned(t, r)[o], facts.now + SETTLE_DELAY, 0)))
    && forall o :: o in left && o !in Returned(t, r) && !IsStopped(x.intents, o) && t.stopEpoch == r.epoch
                   && o in x.enabled && Get(x.saved, o) == Some(left[o].assignment) ==>
         Tried(o, left[o], facts, attempted, retries)
  }

  lemma StoppedByLog(log: seq<Entry>, attempted: set<string>)
    ensures forall o :: IsStopped(SessionIntents.After(log), o) <==> StoppedByName(log, o) || StoppedByAll(log, o)
    ensures NoStartOfEverything(log) && (forall o :: o in attempted ==> !IsStopped(SessionIntents.After(log), o)) ==>
              forall o, j :: o in attempted && LastCovering(log, j, o) ==> !log[j].stopped
  {
    forall o ensures IsStopped(SessionIntents.After(log), o) <==> StoppedByName(log, o) || StoppedByAll(log, o) {
      StoppedExactly(log, o);
    }
    if NoStartOfEverything(log) && forall o :: o in attempted ==> !IsStopped(SessionIntents.After(log), o) {
      forall o, j | o in attempted && LastCovering(log, j, o) ensures !log[j].stopped {
        StoppedIffLastCoveringStops(log, o);
      }
    }
  }

  /** Only what was armed or pending is pending afterwards. */
  lemma AdvancedKeys(s: State, r: RecoveryTracking.Round)
    ensures Advanced(s, r).pending.Keys <= s.pending.Keys + s.armed.Keys
  {
  }

  /** What pruning leaves of the tracker's tables. */
  ghost predicate LeftOver(s: State, t: State, intents: Intents, enabled: set<string>, moved: set<string>,
        rewritten: set<string>) {
    && t.enabled == s.enabled && t.stopEpoch == s.stopEpoch
    && (forall o :: o in t.armed ==>
          && Get(s.armed, o) == Some(t.armed[o]) && !IsStopped(intents, o) && o !in rewritten
          && (o in s.enabled ==> o in enabled))
    && forall o :: o in t.pending && o !in moved ==>
         && !IsStopped(intents, o) && o !in rewritten
         && (|| Get(s.pending, o) == Some(t.pending[o])
             || (Get(s.armed, o) == Some(t.pending[o]) && o !in enabled))
  }

  /** Pruning keeps scheduled exactly what was neither dropped nor rewritten. */
  ghost predicate LeftScheduled(before: Retries, left: Retries, dropped: set<string>, rewritten: set<string>) {
    && (forall o :: o in left ==> Get(before, o) == Some(left[o]) && o !in rewritten)
    && forall o :: o in before && o !in dropped && o !in rewritten ==> o in left
  }

  /** Pruning keeps waiting what nothing is against. */
  ghost predicate Spares(s: State, t: State, intents: Intents, enabled: set<string>, lost: set<string>,
        rewritten: set<string>) {
    forall o :: o !in lost && !IsStopped(intents, o) && o !in rewritten ==>
      if o in s.armed && o in s.enabled && o !in enabled then Get(t.pending, o) == Some(s.armed[o]) && o !in t.armed
      else o in s.pending ==> Get(t.pending, o) == Some(s.pending[o])
  }

  /** The migration drops some outputs, and touches nothing else but what it made wait. */
  ghost predicate Migrated(u: State, t: State, gone: set<string>, moved: set<string>) {
    && t.enabled == u.enabled && t.stopEpoch == u.stopEpoch && t.armed == Forget(u.armed, gone)
    && forall o :: o !in moved ==> Get(t.pending, o) == Get(Forget(u.pending, gone), o)
  }

  lemma SettledSpares(s: State, d: State, u: State, t: State, intents: Intents, enabled: set<string>,
        gone: set<string>, moved: set<string>, dropped: set<string>)
    requires d == s.(armed := Unless(s.armed, intents), pending := Unless(s.pending, intents))
    requires u == Remember(d, enabled) && Migrated(u, t, gone, moved) && gone <= dropped
    ensures Spares(s, t, intents, enabled, moved + dropped, {})
  {
    forall o | o !in moved + dropped && !IsStopped(intents, o)
      ensures if o in s.armed && o in s.enabled && o !in enabled then
                Get(t.pending, o) == Some(s.armed[o]) && o !in t.armed
              else o in s.pending ==> Get(t.pending, o) == Some(s.pending[o])
    {
      assert Get(t.pending, o) == Get(u.pending, o);
    }
  }

  lemma SettledIsLeftOver(s: State, d: State, u: State, t: State, intents: Intents, enabled: set<string>,
        gone: set<string>, moved: set<string>)
    requires d == s.(armed := Unless(s.armed, intents), pending := Unless(s.pending, intents))
    requires u == Remember(d, enabled) && Migrated(u, t, gone, moved)
    ensures LeftOver(s, t, intents, enabled, moved, {})
  {
    forall o | o in t.pending && o !in moved
      ensures !IsStopped(intents, o)
      ensures Get(s.pending, o) == Some(t.pending[o]) || (Get(s.armed, o) == Some(t.pending[o]) && o !in enabled)
    {
      assert Get(t.pending, o) == Get(Forget(u.pending, gone), o);
      if o in d.armed && o in d.enabled && o !in enabled {
        assert t.pending[o] == d.armed[o];
      } else {
        assert Get(d.pending, o) == Some(t.pending[o]);
      }
    }
  }

  /** The tables without the given outputs. */
  ghost function Without(t: State, names: set<string>): State {
    t.(armed := Forget(t.armed, names), pending := Forget(t.pending, names))
  }

  lemma RewrittenAreLeftOver(s: State, t: State, intents: Intents, enabled: set<string>, moved: set<string>,
        rewritten: set<string>, stopped: set<string>)
    requires LeftOver(s, t, intents, enabled, moved, {})
    ensures LeftOver(s, Without(Without(t, rewritten), stopped), intents, enabled, moved, rewritten)
  {
  }

  lemma RewrittenSpares(s: State, t: State, intents: Intents, enabled: set<string>, lost: set<string>,
        rewritten: set<string>, stopped: set<string>)
    requires Spares(s, t, intents, enabled, lost, {}) && forall o :: o in stopped ==> IsStopped(intents, o)
    ensures Spares(s, Without(Without(t, rewritten), stopped), intents, enabled, lost, rewritten)
  {
  }

  /** The restoration was scheduled before, or its output has just been returned. */
  predicate DueWith(retries: Assignments, t: State, r: RecoveryTracking.Round, o: string, a: Assignment) {
    Get(retries, o) == Some(a) || Get(Returned(t, r), o) == Some(a)
  }

  lemma StillKnown(past: seq<Seen>, x: Seen, known: map<string, nat>)
    requires forall o :: Get(known, o) == Known(past, o)
    ensures forall o :: Get(known + map o | o in x.intents :: x.intents[o].epoch, o) == Known(past + [x], o)
    ensures forall o :: o in Fresh(known, x.intents) <==> Rewritten(past + [x], |past|, o)
  {
    assert (past + [x])[..|past|] == past;
  }

  lemma LeftOverIsPruned(past: seq<Seen>, x: Seen, s: State, t: State, moved: set<string>, known: map<string, nat>)
    requires forall o :: Get(known, o) == Known(past, o)
    requires LeftOver(s, t, x.intents, x.enabled, moved, Fresh(known, x.intents))
    ensures Pruned(s, t, past + [x], moved)
  {
    StillKnown(past, x, known);
  }

  /** The watcher's tables come from where the rounds say. */
  ghost predicate TracedAs(past: seq<Seen>, s: State, known: map<string, nat>, retries: Assignments,
        moved: set<string>) {
    && s.enabled == EnabledLast(past) && (forall o :: Get(known, o) == Known(past, o))
    && ArmedTraced(past, s.armed, moved) && WaitingTraced(past, s.pending, moved)
    && ScheduledTraced(past, retries, moved)
  }

  /** What was returned or scheduled before and is still due. */
  ghost predicate StillDue(x: Seen, t: State, r: RecoveryTracking.Round, left: Assignments, o: string) {
    && o in x.saved && o in x.enabled && !IsStopped(x.intents, o) && DueWith(left, t, r, o, x.saved[o])
  }

  lemma TablesAreTraced(past: seq<Seen>, x: Seen, s: State, t: State, scheduled: Assignments, left: Assignments,
        retries: Assignments, known: map<string, nat>, movedBefore: set<string>, moved: set<string>, epoch: string,
        attempted: set<string>)
    requires TracedAs(past, s, known, scheduled, movedBefore) && movedBefore <= moved && x.confirmed <= x.enabled
    requires LeftOver(s, t, x.intents, x.enabled, moved, Fresh(known, x.intents))
    requires forall o :: o in left ==> Get(scheduled, o) == Some(left[o]) && o !in Fresh(known, x.intents)
    requires var r := RecoveryTracking.Round(x.enabled, x.saved, x.confirmed, epoch);
             forall o :: o in retries || o in attempted ==> StillDue(x, t, r, left, o)
    requires forall o :: o in retries ==> Get(x.saved, o) == Some(retries[o])
    ensures var r := RecoveryTracking.Round(x.enabled, x.saved, x.confirmed, epoch);
            TracedAs(past + [x], Advanced(t, r), known + map o | o in x.intents :: x.intents[o].epoch, retries, moved)
    ensures forall o :: o in attempted && o !in moved ==>
              exists i, d, k :: ScheduledFrom(past + [x], i, d, k, o, x.saved[o])
  {
    StillKnown(past, x, known);
    LeftOverIsPruned(past, x, s, t, moved, known);
    PrunedIsTraced(past, x, s, t, moved);
    AdvanceIsTraced(past, x, t, epoch, moved);
    var r := RecoveryTracking.Round(x.enabled, x.saved, x.confirmed, epoch);
    forall o | (o in retries || o in attempted) && o !in moved
      ensures exists i, d, k :: ScheduledFrom(past + [x], i, d, k, o, x.saved[o])
    {
      assert StillDue(x, t, r, left, o);
      DueIsTraced(past, x, scheduled, left, known, t, epoch, moved, o, x.saved[o]);
    }
  }

  lemma DueIsTraced(past: seq<Seen>, x: Seen, scheduled: Assignments, left: Assignments, known: map<string, nat>,
        t: State, epoch: string, moved: set<string>, o: string, a: Assignment)
    requires forall y :: Get(known, y) == Known(past, y)
    requires ScheduledTraced(past, scheduled, moved)
    requires forall y :: y in left ==> Get(scheduled, y) == Some(left[y]) && y !in Fresh(known, x.intents)
    requires var r := RecoveryTracking.Round(x.enabled, x.saved, x.confirmed, epoch);
             ScheduledTraced(past + [x], Returned(t, r), moved) && DueWith(left, t, r, o, a)
    requires o !in moved && o in x.enabled && Get(x.saved, o) == Some(a) && !IsStopped(x.intents, o)
    ensures exists i, d, k :: ScheduledFrom(past + [x], i, d, k, o, a)
  {
    StillKnown(past, x, known);
    if Get(left, o) == Some(a) {
      var i, d, k :| ScheduledFrom(past, i, d, k, o, a);
      ScheduledNext(past, x, i, d, k, o, a);
    } else {
      var r := RecoveryTracking.Round(x.enabled, x.saved, x.confirmed, epoch);
      assert Returned(t, r)[o] == a;
    }
  }

  /** A whole round on the tables: everything in them, and everything restored, comes from where the rounds say. */
  lemma RoundIsTraced(past: seq<Seen>, x: Seen, s: State, t: State, scheduled: Retries, left: Retries,
        retries: Retries, known: map<string, nat>, movedBefore: set<string>, moved: set<string>,
        dropped: set<string>, facts: Facts, epoch: string, attempted: set<string>)
    requires TracedAs(past, s, known, Plain(scheduled), movedBefore) && movedBefore <= moved
    requires x.confirmed <= x.enabled && LeftOver(s, t, x.intents, x.enabled, moved, Fresh(known, x.intents))
    requires LeftScheduled(scheduled, left, dropped, Fresh(known, x.intents))
    requires var r := RecoveryTracking.Round(x.enabled, x.saved, x.confirmed, epoch);
             Started(x, t, r, facts, left, retries, attempted)
    ensures var r := RecoveryTracking.Round(x.enabled, x.saved, x.confirmed, epoch);
            TracedAs(past + [x], Advanced(t, r), known + map o | o in x.intents :: x.intents[o].epoch,
              Plain(retries), moved)
    ensures RestoresTraced(past + [x], x.saved, attempted, moved)
  {
    forall o | o in Plain(left)
      ensures Get(Plain(scheduled), o) == Some(Plain(left)[o]) && o !in Fresh(known, x.intents)
    {
      assert o in left;
    }
    TablesAreTraced(past, x, s, t, Plain(scheduled), Plain(left), Plain(retries), known, movedBefore, moved, epoch,
          attempted);
  }

  /** The converse of a whole round: what must wait does, and what must come back is returned. */
  lemma RoundRemembers(past: seq<Seen>, x: Seen, s: State, t: State, lostBefore: set<string>, lost: set<string>,
        known: map<string, nat>, show: nat -> string)
    requires s.enabled == EnabledLast(past) && forall o :: Get(known, o) == Known(past, o)
    requires lostBefore <= lost && Remembers(past, s, lostBefore, show)
    requires t.enabled == s.enabled && t.stopEpoch == s.stopEpoch
    requires Spares(s, t, x.intents, x.enabled, lost, Fresh(known, x.intents))
    ensures var r := RecoveryTracking.Round(x.enabled, x.saved, x.confirmed, show(GlobalEpoch(x.intents)));
            Remembers(past + [x], Advanced(t, r), lost, show) && Returns(past + [x], Returned(t, r), lost)
  {
    StillKnown(past, x, known);
    OneMoreRound(past, x, s, t, lost, show);
  }

  ghost predicate Returns(past: seq<Seen>, returned: Assignments, lost: set<string>) {
    forall d: nat, o, a :: ComesBack(past, d, o, a) && o !in lost ==> Get(returned, o) == Some(a)
  }

  lemma ReturnedAreScheduled(past: seq<Seen>, x: Seen, t: State, r: RecoveryTracking.Round, lost: set<string>,
        facts: Facts, left: Retries, retries: Retries, attempted: set<string>)
    requires Returns(past + [x], Returned(t, r), lost) && StartsWhatIsDue(x, t, r, facts, left, retries, attempted)
    ensures ReturnsScheduled(past + [x], retries, facts.now, lost)
  {
    forall d: nat, o, a | ComesBack(past + [x], d, o, a) && o !in lost
      ensures Get(retries, o) == Some(Retry(a, facts.now + SETTLE_DELAY, 0))
    {
      assert Get(Returned(t, r), o) == Some(a) && !IsStopped(x.intents, o);
    }
  }

  /** What was scheduled and is still wanted is among what the round tries. */
  lemma RoundTries(past: seq<Seen>, x: Seen, s: State, t: State, lost: set<string>, known: map<string, nat>,
        dropped: set<string>, show: nat -> string, facts: Facts, scheduled: Retries, left: Retries, retries: Retries,
        attempted: set<string>)
    requires s.enabled == EnabledLast(past) && forall o :: Get(known, o) == Known(past, o)
    requires past != [] ==> s.stopEpoch == show(GlobalEpoch(past[|past| - 1].intents))
    requires Orderly(scheduled, EnabledLast(past)) && t.enabled == s.enabled && t.stopEpoch == s.stopEpoch
    requires LeftScheduled(scheduled, left, dropped, Fresh(known, x.intents)) && dropped <= lost
    requires var r := RecoveryTracking.Round(x.enabled, x.saved, x.confirmed, show(GlobalEpoch(x.intents)));
             Started(x, t, r, facts, left, retries, attempted)
    ensures ScheduledTried(past + [x], scheduled, facts, attempted, retries, lost)
    ensures Orderly(retries, EnabledLast(past + [x]))
  {
    StillKnown(past, x, known);
    var r := RecoveryTracking.Round(x.enabled, x.saved, x.confirmed, show(GlobalEpoch(x.intents)));
    forall o | o in scheduled && o !in lost && StillWants(past + [x], o, scheduled[o].assignment)
      ensures Tried(o, scheduled[o], facts, attempted, retries)
    {
      var all := past + [x];
      assert GlobalEpoch(all[|past|].intents) == GlobalEpoch(all[|past| - 1].intents);
      assert o in left && o !in Returned(t, r);
    }
  }
}
