/** Which returning outputs are resurrected, as an exact statement about the whole history of rounds. */
module RecoveryTracking {
  import opened Prelude
  import opened DisplayState

  datatype Round = Round(enabled: set<string>, saved: map<string, Assignment>, confirmed: set<string>, epoch: string)

  datatype State = State(enabled: set<string>, armed: map<string, Assignment>, pending: map<string, Assignment>,
        stopEpoch: string)

  const Initial := State({}, map[], map[], "")

  // ---------------------------------------------------------------- one round

  function Remember(s: State, enabled: set<string>): State {
    var gone := (s.enabled - enabled) * s.armed.Keys;
    s.(armed := s.armed - gone, pending := s.pending + map o | o in gone :: s.armed[o])
  }

  /** After the stop epoch and the disconnected outputs have been taken into account. */
  function Noticed(s: State, r: Round): State {
    Remember(if s.stopEpoch != r.epoch then State(s.enabled, map[], map[], r.epoch) else s, r.enabled)
  }

  function Returned(s: State, r: Round): map<string, Assignment> {
    var t := Noticed(s, r);
    map o | o in t.pending && o in r.enabled - s.enabled && Get(r.saved, o) == Some(t.pending[o]) :: t.pending[o]
  }

  function Advanced(s: State, r: Round): State {
    var t := Noticed(s, r);
    State(
      r.enabled,
      (map o | o in t.armed && o in r.enabled && o in r.confirmed :: t.armed[o])
      + (map o | o in r.confirmed && o in r.saved :: r.saved[o]),
      t.pending - (r.enabled - s.enabled),
      r.epoch)
  }

  // ---------------------------------------------------------------- whole histories

  function After(rounds: seq<Round>): State {
    if rounds == [] then Initial else Advanced(After(rounds[..|rounds| - 1]), rounds[|rounds| - 1])
  }

  /** What is armed for an output once round `i` is over, read off the history. */
  function ArmedAt(rounds: seq<Round>, i: nat, o: string): Option<Assignment>
    requires i < |rounds|
  {
    var r := rounds[i];
    if o !in r.confirmed then None
    else if o in r.saved then Some(r.saved[o])
    else if i > 0 && o in r.enabled && rounds[i - 1].epoch == r.epoch then ArmedAt(rounds, i - 1, o)
    else None
  }

  ghost predicate SameEpoch(rounds: seq<Round>, i: nat, k: nat)
    requires i <= k < |rounds|
  {
    forall j :: i <= j <= k ==> rounds[j].epoch == rounds[i].epoch
  }

  /** Round `i` is the last one up to `k` in which the output was enabled. */
  ghost predicate LastEnabled(rounds: seq<Round>, i: nat, k: nat, o: string)
    requires i <= k < |rounds|
  {
    o in rounds[i].enabled && forall j :: i < j <= k ==> o !in rounds[j].enabled
  }

  /** The output left after round `i`, armed, and no stop-all has happened up to round `k`. */
  ghost predicate Waits(rounds: seq<Round>, i: nat, k: nat, o: string, a: Assignment)
    requires i < k < |rounds|
  {
    LastEnabled(rounds, i, k, o) && SameEpoch(rounds, i, k) && ArmedAt(rounds, i, o) == Some(a)
  }

  ghost predicate Waiting(rounds: seq<Round>, k: nat, o: string, a: Assignment)
    requires k < |rounds|
  {
    exists i :: 0 <= i < k && Waits(rounds, i, k, o, a)
  }

  lemma {:induction false} ArmedAtPrefix(rounds: seq<Round>, n: nat, i: nat, o: string)
    requires i < n <= |rounds|
    ensures ArmedAt(rounds[..n], i, o) == ArmedAt(rounds, i, o)
    decreases i
  {
    if i > 0 {
      ArmedAtPrefix(rounds, n, i - 1, o);
    }
  }

  lemma WaitingPrefix(rounds: seq<Round>, n: nat, k: nat, o: string, a: Assignment)
    requires k < n <= |rounds|
    ensures Waiting(rounds[..n], k, o, a) <==> Waiting(rounds, k, o, a)
  {
    forall i | 0 <= i < k ensures Waits(rounds[..n], i, k, o, a) <==> Waits(rounds, i, k, o, a) {
      ArmedAtPrefix(rounds, n, i, o);
    }
  }

  /** One round on the fields of one output. */
  ghost predicate Fields(s: State, r: Round, t: State, o: string) {
    && t.enabled == r.enabled && t.stopEpoch == r.epoch
    && Get(t.armed, o)
       == (if o !in r.confirmed then None
           else if o in r.saved then Some(r.saved[o])
           else if o in r.enabled && s.stopEpoch == r.epoch then Get(s.armed, o)
           else None)
    && Get(t.pending, o)
       == (if s.stopEpoch != r.epoch then None
           else if o in s.enabled && o !in r.enabled then (if o in s.armed then Get(s.armed, o) else Get(s.pending, o))
           else if o in r.enabled && o !in s.enabled then None
           else Get(s.pending, o))
  }

  lemma AdvancedFields(s: State, r: Round, o: string)
    ensures Fields(s, r, Advanced(s, r), o)
  {
  }

  /** The fields say of an output exactly what the history says. */
  ghost predicate Follows(rounds: seq<Round>, s: State, o: string)
    requires rounds != []
  {
    var k := |rounds| - 1;
    && s.enabled == rounds[k].enabled && s.stopEpoch == rounds[k].epoch
    && Get(s.armed, o) == ArmedAt(rounds, k, o)
    && forall a :: Get(s.pending, o) == Some(a) <==> Waiting(rounds, k, o, a)
  }

  lemma FollowsNext(rounds: seq<Round>, s: State, t: State, o: string)
    requires |rounds| > 1
    requires Follows(rounds[..|rounds| - 1], s, o) && Fields(s, rounds[|rounds| - 1], t, o)
    ensures Follows(rounds, t, o)
  {
    var k, last := |rounds| - 1, |rounds| - 2;
    ArmedAtPrefix(rounds, k, last, o);
    forall a ensures Get(t.pending, o) == Some(a) <==> Waiting(rounds, k, o, a) {
      WaitingNext(rounds, k, o, a);
      WaitingPrefix(rounds, k, last, o, a);
    }
  }

  /** The tracker's fields after any history say exactly what the history says. */
  lemma {:induction false} StateFollowsHistory(rounds: seq<Round>, o: string)
    requires rounds != []
    ensures Follows(rounds, After(rounds), o)
    decreases |rounds|
  {
    var before, r := rounds[..|rounds| - 1], rounds[|rounds| - 1];
    AdvancedFields(After(before), r, o);
    if before != [] {
      StateFollowsHistory(before, o);
      FollowsNext(rounds, After(before), After(rounds), o);
    }
  }

  /** How waiting carries over from the rounds so far to the next one. */
  lemma WaitingNext(rounds: seq<Round>, k: nat, o: string, a: Assignment)
    requires 0 < k < |rounds|
    ensures Waiting(rounds, k, o, a) <==> (
                && o !in rounds[k].enabled && rounds[k - 1].epoch == rounds[k].epoch
                && if o in rounds[k - 1].enabled then ArmedAt(rounds, k - 1, o) == Some(a)
                   else Waiting(rounds, k - 1, o, a))
  {
    var last := k - 1;
    if i :| 0 <= i < k && Waits(rounds, i, k, o, a) {
      if i < last {
        assert Waits(rounds, i, last, o, a);
      }
    }
    if o !in rounds[k].enabled && rounds[last].epoch == rounds[k].epoch {
      if o in rounds[last].enabled {
        if ArmedAt(rounds, last, o) == Some(a) {
          assert Waits(rounds, last, k, o, a);
        }
      } else if i :| 0 <= i < last && Waits(rounds, i, last, o, a) {
        assert rounds[i].epoch == rounds[last].epoch;
        assert Waits(rounds, i, k, o, a);
      }
    }
  }

  lemma ReturnedFields(s: State, r: Round, o: string)
    ensures Get(Returned(s, r), o)
         == if s.stopEpoch == r.epoch && o in r.enabled && o !in s.enabled && o in s.pending
             && Get(r.saved, o) == Get(s.pending, o)
            then Get(s.pending, o) else None
  {
  }

  /**
   * Round `k` returns an output with an assignment exactly when the output is enabled in `k`, was
   * disabled in every round since some round `i` in which it was enabled and at least once, was armed
   * with that assignment in round `i`, still has it saved, and no stop-all fell into rounds `i..k`.
   */
  lemma ReturnedExactly(rounds: seq<Round>, k: nat, o: string, a: Assignment)
    requires k < |rounds|
    ensures Get(Returned(After(rounds[..k]), rounds[k]), o) == Some(a)
       <==> o in rounds[k].enabled && Get(rounds[k].saved, o) == Some(a)
            && exists i :: 0 <= i < k - 1 && ReturnsFrom(rounds, i, k, o, a)
  {
    ReturnedFields(After(rounds[..k]), rounds[k], o);
    if k > 0 {
      StateFollowsHistory(rounds[..k], o);
      WaitingPrefix(rounds, k, k - 1, o, a);
      if Waiting(rounds, k - 1, o, a) && rounds[k - 1].epoch == rounds[k].epoch {
        var i :| 0 <= i < k - 1 && Waits(rounds, i, k - 1, o, a);
        assert rounds[i].epoch == rounds[k - 1].epoch;
        assert ReturnsFrom(rounds, i, k, o, a);
      }
      if i :| 0 <= i < k - 1 && ReturnsFrom(rounds, i, k, o, a) {
        assert Waits(rounds, i, k - 1, o, a);
        assert o !in rounds[k - 1].enabled;
      }
    }
  }

  ghost predicate ReturnsFrom(rounds: seq<Round>, i: nat, k: nat, o: string, a: Assignment)
    requires i < k - 1 && k < |rounds|
  {
    LastEnabled(rounds, i, k - 1, o) && SameEpoch(rounds, i, k) && ArmedAt(rounds, i, o) == Some(a)
  }

  /** With a saved row behind every confirmation, armed means confirmed with that row in that round. */
  lemma ArmedMeansConfirmed(rounds: seq<Round>, i: nat, o: string)
    requires i < |rounds| && rounds[i].confirmed <= rounds[i].saved.Keys
    ensures ArmedAt(rounds, i, o) == if o in rounds[i].confirmed then Some(rounds[i].saved[o]) else None
  {
  }

  /**
   * When every confirmed output has a saved row: round `k` returns exactly the outputs that are back
   * for the first time since the round `i` in which they were last enabled and confirmed with the
   * assignment still saved for them, all within one stop epoch.
   */
  lemma ReturnedWasConfirmed(rounds: seq<Round>, k: nat, o: string, a: Assignment)
    requires k < |rounds| && forall i :: 0 <= i < |rounds| ==> rounds[i].confirmed <= rounds[i].saved.Keys
    ensures Get(Returned(After(rounds[..k]), rounds[k]), o) == Some(a)
       <==> o in rounds[k].enabled && Get(rounds[k].saved, o) == Some(a)
            && exists i :: 0 <= i < k - 1 && ConfirmedThenAbsent(rounds, i, k, o, a)
  {
    ReturnedExactly(rounds, k, o, a);
    forall i | 0 <= i < k - 1 ensures ReturnsFrom(rounds, i, k, o, a) <==> ConfirmedThenAbsent(rounds, i, k, o, a) {
      ArmedMeansConfirmed(rounds, i, o);
    }
  }

  ghost predicate ConfirmedThenAbsent(rounds: seq<Round>, i: nat, k: nat, o: string, a: Assignment)
    requires i < k - 1 && k < |rounds|
  {
    && LastEnabled(rounds, i, k - 1, o) && SameEpoch(rounds, i, k)
    && o in rounds[i].confirmed && Get(rounds[i].saved, o) == Some(a)
  }

  /** Remembering the disconnected outputs once more before a round changes neither state nor result. */
  lemma RememberingEarlyIsHarmless(s: State, r: Round)
    ensures Advanced(Remember(s, r.enabled), r) == Advanced(s, r)
    ensures Returned(Remember(s, r.enabled), r) == Returned(s, r)
  {
    assert Noticed(Remember(s, r.enabled), r) == Noticed(s, r);
  }

  // ---------------------------------------------------------------- the tracker

  /** The last round returns the output with the assignment, as the history says. */
  ghost predicate IsReturned(rounds: seq<Round>, o: string, a: Assignment)
    requires rounds != []
  {
    var k := |rounds| - 1;
    && o in rounds[k].enabled && Get(rounds[k].saved, o) == Some(a)
    && exists i :: 0 <= i < k - 1 && ReturnsFrom(rounds, i, k, o, a)
  }

  /** Moves the armed entries of the given outputs to the pending ones. */
  method MovedToPending(before: map<string, Assignment>, waiting: map<string, Assignment>, gone: set<string>)
      returns (armed: map<string, Assignment>, pending: map<string, Assignment>)
    ensures armed == before - gone * before.Keys
    ensures pending == waiting + map o | o in gone * before.Keys :: before[o]
  {
    armed, pending := before, waiting;
    var rest := gone;
    ghost var done: set<string> := {};
    while rest != {}
      invariant done + rest == gone && done !! rest
      invariant armed == before - done
      invariant pending == waiting + map o | o in done * before.Keys :: before[o]
      decreases rest
    {
      var output :| output in rest;
      rest, done := rest - {output}, done + {output};
      if output in armed {
        pending := pending[output := armed[output]];
        armed := armed - {output};
      }
    }
    assert before - gone == before - gone * before.Keys;
  }

  /** One round from fields that follow the rounds before, possibly remembered early. */
  lemma FollowsRounds(rounds: seq<Round>, s: State, early: Option<set<string>>)
    requires rounds != [] && (early.Some? ==> early.value == rounds[|rounds| - 1].enabled)
    requires var before := After(rounds[..|rounds| - 1]);
             s == if early.Some? then Remember(before, early.value) else before
    ensures Advanced(s, rounds[|rounds| - 1]) == After(rounds)
    ensures forall o, a :: Get(Returned(s, rounds[|rounds| - 1]), o) == Some(a) <==> IsReturned(rounds, o, a)
  {
    var k := |rounds| - 1;
    RememberingEarlyIsHarmless(After(rounds[..k]), rounds[k]);
    forall o, a ensures Get(Returned(s, rounds[k]), o) == Some(a) <==> IsReturned(rounds, o, a) {
      ReturnedExactly(rounds, k, o, a);
    }
  }

  /** The tracker as it is: four fields updated in place. */
  class RecoveryTracker {
    var enabled: set<string>
    var armed: map<string, Assignment>
    var pending: map<string, Assignment>
    var stopEpoch: string

    /** The rounds so far. */
    ghost var rounds: seq<Round>

    ghost function Now(): State
      reads this
    {
      State(enabled, armed, pending, stopEpoch)
    }

    /** The fields are those of the rounds so far, with at most one early remembering since. */
    ghost predicate Valid(early: Option<set<string>>)
      reads this
    {
      Now() == if early.Some? then Remember(After(rounds), early.value) else After(rounds)
    }

    constructor ()
      ensures Valid(None) && rounds == []
    {
      enabled, armed, pending, stopEpoch, rounds := {}, map[], map[], "", [];
    }

    method RememberDisconnected(enabled: set<string>)
      modifies this`armed, this`pending
      ensures Now() == Remember(old(Now()), enabled)
      ensures old(Valid(None)) ==> Valid(Some(enabled))
    {
      armed, pending := MovedToPending(armed, pending, this.enabled - enabled);
    }

    /**
     * One round. With nothing but the rounds and perhaps one early remembering behind the fields, it
     * returns exactly the outputs the history says: back for the first time since they were last
     * enabled and armed, with the assignment still saved, all within one stop epoch.
     */
    method Advance(r: Round, ghost early: Option<set<string>>) returns (restore: seq<(string, Assignment)>)
      requires early.Some? ==> early.value == r.enabled
      modifies this
      ensures rounds == old(rounds) + [r] && (old(Valid(early)) ==> Valid(None))
      ensures forall i, j :: 0 <= i < j < |restore| ==> restore[i].0 != restore[j].0
      ensures old(Valid(early)) ==> forall o, a :: (o, a) in restore <==> IsReturned(rounds, o, a)
      ensures Now() == Advanced(old(Now()), r)
      ensures forall o, a :: (o, a) in restore <==> Get(Returned(old(Now()), r), o) == Some(a)
    {
      ghost var s := Now();
      restore := AdvanceFields(r);
      rounds := rounds + [r];
      assert rounds[..|rounds| - 1] == old(rounds);
      if old(Valid(early)) {
        FollowsRounds(rounds, s, early);
      }
    }

    method AdvanceFields(r: Round) returns (restore: seq<(string, Assignment)>)
      modifies this`enabled, this`armed, this`pending, this`stopEpoch
      ensures Now() == Advanced(old(Now()), r)
      ensures forall i, j :: 0 <= i < j < |restore| ==> restore[i].0 != restore[j].0
      ensures forall o, a :: (o, a) in restore <==> Get(Returned(old(Now()), r), o) == Some(a)
    {
      if stopEpoch != r.epoch {
        armed, pending, stopEpoch := map[], map[], r.epoch;
      }
      RememberDisconnected(r.enabled);
      assert Now() == Noticed(old(Now()), r);
      restore := TakeReturned(r);
      Rearm(r);
      enabled := r.enabled;
    }

    /** Keeps what is still confirmed and arms everything confirmed with its saved assignment. */
    method Rearm(r: Round)
      modifies this`armed
      ensures armed == (map o | o in old(armed) && o in r.enabled && o in r.confirmed :: old(armed)[o])
                       + (map o | o in r.confirmed && o in r.saved :: r.saved[o])
    {
      armed := map o | o in armed && o in r.enabled && o in r.confirmed :: armed[o];
      ghost var kept := armed;
      var rest := r.confirmed;
      while rest != {}
        invariant rest <= r.confirmed
        invariant armed == kept + map o | o in r.confirmed - rest && o in r.saved :: r.saved[o]
        decreases rest
      {
        var output :| output in rest;
        if output in r.saved {
          armed := armed[output := r.saved[output]];
        }
        rest := rest - {output};
      }
      assert r.confirmed - rest == r.confirmed;
    }

    /** Takes every pending entry of a returning output; keeps those whose assignment still stands. */
    method TakeReturned(r: Round) returns (restore: seq<(string, Assignment)>)
      modifies this`pending
      ensures pending == old(pending) - (r.enabled - enabled)
      ensures forall i, j :: 0 <= i < j < |restore| ==> restore[i].0 != restore[j].0
      ensures forall p :: p in restore <==> (
                  && p.0 in old(pending) && old(pending)[p.0] == p.1
                  && p.0 in r.enabled - enabled && Get(r.saved, p.0) == Some(p.1))
    {
      restore := [];
      var rest := r.enabled - enabled;
      ghost var done: set<string> := {};
      while rest != {}
        invariant done + rest == r.enabled - enabled && done !! rest
        invariant pending == old(pending) - done
        invariant forall i, j :: 0 <= i < j < |restore| ==> restore[i].0 != restore[j].0
        invariant forall p :: p in restore <==>
                    p.0 in old(pending) && p.0 in done && Get(r.saved, p.0) == Some(p.1) && old(pending)[p.0] == p.1
        decreases rest
      {
        var output :| output in rest;
        rest, done := rest - {output}, done + {output};
        if output in pending {
          var assignment := pending[output];
          pending := pending - {output};
          if Get(r.saved, output) == Some(assignment) {
            assert forall p :: p in restore ==> p.0 != output;
            restore := restore + [(output, assignment)];
          }
        }
      }
    }
  }
}
