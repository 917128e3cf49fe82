/** Connector names and hardware identities: snapshots, the remembered outputs, and rename matching. */
module Connectors {
  import opened Prelude

  datatype Connector = Connector(name: string, enabled: bool, identity: Option<string>)

  datatype SnapshotError = MissingName | DuplicateConnector

  /** One decoded entry of a compositor snapshot; a missing name is an empty one. */
  datatype Entry = Entry(name: Option<string>, enabled: bool, identity: Option<string>)

  ghost predicate DistinctNames(outputs: seq<Connector>) {
    forall i, j :: 0 <= i < j < |outputs| ==> outputs[i].name != outputs[j].name
  }

  ghost predicate DistinctIdentities(outputs: seq<Connector>) {
    forall i, j :: 0 <= i < j < |outputs| && outputs[i].identity.Some? ==> outputs[i].identity != outputs[j].identity
  }

  ghost predicate Repeated(entries: seq<Entry>, id: string) {
    exists i, j :: 0 <= i < j < |entries| && entries[i].identity == Some(id) && entries[j].identity == Some(id)
  }

  ghost predicate Acceptable(entries: seq<Entry>) {
    && (forall e :: e in entries ==> e.name.Some? && !IsBlank(e.name.value))
    && forall i, j :: 0 <= i < j < |entries| ==> entries[i].name != entries[j].name
  }

  /** An identity claimed twice identifies nobody. */
  ghost function Unambiguous(entries: seq<Entry>, identity: Option<string>): Option<string> {
    if identity.Some? && Repeated(entries, identity.value) then None else identity
  }

  /** Ambiguous identities are dropped; everything else is kept as decoded. */
  ghost predicate Decoded(entries: seq<Entry>, outputs: seq<Connector>) {
    && |outputs| == |entries|
    && forall i :: 0 <= i < |entries| ==>
         && Some(outputs[i].name) == entries[i].name && outputs[i].enabled == entries[i].enabled
         && outputs[i].identity == Unambiguous(entries, entries[i].identity)
  }

  /** The snapshot before its final ordering by name. */
  method ParseSnapshot(entries: seq<Entry>) returns (r: Result<seq<Connector>, SnapshotError>)
    ensures r.Success? <==> Acceptable(entries)
    ensures r.Success? ==> Decoded(entries, r.value)
    ensures r.Failure? ==>
              if r.error.MissingName? then exists e :: e in entries && (e.name.None? || IsBlank(e.name.value))
              else exists i, j :: 0 <= i < j < |entries| && entries[i].name == entries[j].name
  {
    var seen: set<string> := {};
    var outputs: seq<Connector> := [];
    for i := 0 to |entries|
      invariant |outputs| == i
      invariant forall j :: 0 <= j < i ==>
                  && entries[j].name.Some?
                  && outputs[j] == Connector(entries[j].name.value, entries[j].enabled, entries[j].identity)
      invariant forall n :: n in seen <==> exists j :: 0 <= j < i && outputs[j].name == n
      invariant Acceptable(entries[..i])
    {
      var e := entries[i];
      assert entries[..i + 1] == entries[..i] + [e];
      if e.name.None? || IsBlank(e.name.value) {
        assert e in entries;
        return Failure(MissingName);
      }
      if e.name.value in seen {
        var j :| 0 <= j < i && outputs[j].name == e.name.value;
        assert entries[j].name == entries[i].name;
        return Failure(DuplicateConnector);
      }
      seen := seen + {e.name.value};
      outputs := outputs + [Connector(e.name.value, e.enabled, e.identity)];
    }
    assert entries[..|entries|] == entries;
    var duplicates := DuplicateIdentities(entries);
    ghost var decoded := outputs;
    for i := 0 to |outputs|
      invariant |outputs| == |decoded|
      invariant forall j :: i <= j < |outputs| ==> outputs[j] == decoded[j]
      invariant forall j :: 0 <= j < i ==>
                  outputs[j] == decoded[j].(identity := Unambiguous(entries, decoded[j].identity))
    {
      if outputs[i].identity.Some? && outputs[i].identity.value in duplicates {
        outputs := outputs[i := outputs[i].(identity := None)];
      }
    }
    return Success(outputs);
  }

  method DuplicateIdentities(entries: seq<Entry>) returns (duplicates: set<string>)
    ensures forall id :: id in duplicates <==> Repeated(entries, id)
  {
    duplicates := {};
    for i := 0 to |entries|
      invariant forall id :: id in duplicates <==> exists j, k ::
                  0 <= j < k < |entries| && j < i && entries[j].identity == Some(id) && entries[k].identity == Some(id)
    {
      if entries[i].identity.Some? && exists k :: i < k < |entries| && entries[k].identity == entries[i].identity {
        duplicates := duplicates + {entries[i].identity.value};
      }
    }
  }

  /** A decoded snapshot never holds two connectors with one name or two with one identity. */
  lemma DecodedIsDistinct(entries: seq<Entry>, outputs: seq<Connector>)
    requires Acceptable(entries) && Decoded(entries, outputs)
    ensures DistinctNames(outputs) && DistinctIdentities(outputs)
  {
    forall i, j | 0 <= i < j < |outputs| && outputs[i].identity.Some?
      ensures outputs[i].identity != outputs[j].identity
    {
      if outputs[i].identity == outputs[j].identity {
        assert Repeated(entries, outputs[i].identity.value);
      }
    }
  }

  // ---------------------------------------------------------------- remembered outputs

  function WithoutIdentity(known: seq<Connector>, id: string, except: string): (r: seq<Connector>)
    ensures forall c :: c in r <==> c in known && (c.name == except || c.identity != Some(id))
  {
    if known == [] then []
    else
      var rest := WithoutIdentity(known[1..], id, except);
      if known[0].name == except || known[0].identity != Some(id) then [known[0]] + rest else rest
  }

  /** The others keep their order. */
  lemma {:induction false} WithoutIdentityInOrder(known: seq<Connector>, id: string, except: string)
    ensures KeepsOrder(WithoutIdentity(known, id, except), known)
  {
    if known != [] {
      WithoutIdentityInOrder(known[1..], id, except);
      KeepsOrderNext(known[0], WithoutIdentity(known[1..], id, except), known[1..]);
      assert [known[0]] + known[1..] == known;
    }
  }

  function Replace(known: seq<Connector>, c: Connector): (r: seq<Connector>)
    ensures forall x :: x in r ==> x == c || (x in known && (DistinctNames(known) ==> x.name != c.name))
    ensures c in r
  {
    if known == [] then [c]
    else if known[0].name == c.name then
      assert DistinctNames(known) ==> forall x :: x in known[1..] ==> x.name != c.name;
      [c] + known[1..]
    else
      assert DistinctNames(known) ==> DistinctNames(known[1..]);
      [known[0]] + Replace(known[1..], c)
  }

  /** One snapshot output enters the remembered list. */
  function Noted(known: seq<Connector>, c: Connector): seq<Connector> {
    Replace(if c.identity.Some? then WithoutIdentity(known, c.identity.value, c.name) else known, c)
  }

  function NotedAll(known: seq<Connector>, snapshot: seq<Connector>): seq<Connector> {
    if snapshot == [] then known else Noted(NotedAll(known, snapshot[..|snapshot| - 1]), snapshot[|snapshot| - 1])
  }

  method NoteSnapshot(known: seq<Connector>, snapshot: seq<Connector>) returns (updated: seq<Connector>)
    ensures updated == NotedAll(known, snapshot)
  {
    updated := known;
    for i := 0 to |snapshot|
      invariant updated == NotedAll(known, snapshot[..i])
    {
      assert snapshot[..i + 1][..i] == snapshot[..i];
      if snapshot[i].identity.Some? {
        updated := WithoutIdentity(updated, snapshot[i].identity.value, snapshot[i].name);
      }
      updated := Replace(updated, snapshot[i]);
    }
    assert snapshot[..|snapshot|] == snapshot;
  }

  lemma DistinctCons(c: Connector, rest: seq<Connector>)
    requires DistinctNames(rest) && DistinctIdentities(rest)
    requires forall x :: x in rest ==> x.name != c.name && (c.identity.Some? ==> x.identity != c.identity)
    ensures DistinctNames([c] + rest) && DistinctIdentities([c] + rest)
  {
  }

  lemma {:induction false} WithoutIdentityDistinct(known: seq<Connector>, id: string, except: string)
    requires DistinctNames(known) && DistinctIdentities(known)
    ensures var r := WithoutIdentity(known, id, except); DistinctNames(r) && DistinctIdentities(r)
  {
    if known != [] {
      assert DistinctNames(known[1..]) && DistinctIdentities(known[1..]);
      WithoutIdentityDistinct(known[1..], id, except);
      DistinctCons(known[0], WithoutIdentity(known[1..], id, except));
    }
  }

  lemma {:induction false} ReplaceDistinct(known: seq<Connector>, c: Connector)
    requires DistinctNames(known) && DistinctIdentities(known)
    requires c.identity.Some? ==> forall x :: x in known && x.name != c.name ==> x.identity != c.identity
    ensures DistinctNames(Replace(known, c)) && DistinctIdentities(Replace(known, c))
  {
    if known != [] {
      TailApart(known);
      var rest := known[1..];
      if known[0].name == c.name {
        assert forall x :: x in rest ==> x in known;
        DistinctCons(c, rest);
      } else {
        ReplaceDistinct(rest, c);
        assert known[0] in known;
        DistinctCons(known[0], Replace(rest, c));
      }
    }
  }

  lemma TailApart(known: seq<Connector>)
    requires known != [] && DistinctNames(known) && DistinctIdentities(known)
    ensures DistinctNames(known[1..]) && DistinctIdentities(known[1..])
    ensures forall x :: x in known[1..] ==>
              x.name != known[0].name && (known[0].identity.Some? ==> x.identity != known[0].identity)
  {
  }

  /** Remembering snapshots, one after another, keeps names and identities distinct. */
  lemma {:induction false} NotedAllDistinct(known: seq<Connector>, snapshot: seq<Connector>)
    requires DistinctNames(known) && DistinctIdentities(known)
    ensures DistinctNames(NotedAll(known, snapshot)) && DistinctIdentities(NotedAll(known, snapshot))
    decreases |snapshot|
  {
    if snapshot != [] {
      var before, c := NotedAll(known, snapshot[..|snapshot| - 1]), snapshot[|snapshot| - 1];
      NotedAllDistinct(known, snapshot[..|snapshot| - 1]);
      if c.identity.Some? {
        WithoutIdentityDistinct(before, c.identity.value, c.name);
        ReplaceDistinct(WithoutIdentity(before, c.identity.value, c.name), c);
      } else {
        ReplaceDistinct(before, c);
      }
    }
  }

  /** What is remembered after a run of rounds. */
  function Remembered(rounds: seq<seq<Connector>>): seq<Connector> {
    if rounds == [] then [] else NotedAll(Remembered(rounds[..|rounds| - 1]), rounds[|rounds| - 1])
  }

  lemma {:induction false} RememberedDistinct(rounds: seq<seq<Connector>>)
    ensures DistinctNames(Remembered(rounds)) && DistinctIdentities(Remembered(rounds))
    decreases |rounds|
  {
    if rounds != [] {
      RememberedDistinct(rounds[..|rounds| - 1]);
      NotedAllDistinct(Remembered(rounds[..|rounds| - 1]), rounds[|rounds| - 1]);
    }
  }

  /** Every output of a round is remembered as the snapshot showed it. */
  lemma {:induction false} SnapshotIsRemembered(known: seq<Connector>, snapshot: seq<Connector>, i: nat)
    requires DistinctNames(snapshot) && DistinctIdentities(snapshot) && i < |snapshot|
    ensures snapshot[i] in NotedAll(known, snapshot)
    decreases |snapshot|
  {
    var n := |snapshot| - 1;
    if i < n {
      var before, c, x := snapshot[..n], snapshot[n], snapshot[i];
      SnapshotIsRemembered(known, before, i);
      assert before[i] == x;
      assert x.name != c.name && (c.identity.Some? ==> x.identity != c.identity);
      NotedKeeps(NotedAll(known, before), c, x);
    }
  }

  lemma NotedKeeps(known: seq<Connector>, c: Connector, x: Connector)
    requires x in known && x.name != c.name && (c.identity.Some? ==> x.identity != c.identity)
    ensures x in Noted(known, c)
  {
    ReplaceKeeps(if c.identity.Some? then WithoutIdentity(known, c.identity.value, c.name) else known, c, x);
  }

  lemma {:induction false} ReplaceKeeps(known: seq<Connector>, c: Connector, x: Connector)
    requires x in known && x.name != c.name
    ensures x in Replace(known, c)
  {
    if known[0] != x && known[0].name != c.name {
      ReplaceKeeps(known[1..], c, x);
    }
  }

  /** The sighting at `k` is of `x`, and no later one takes over its name or its identity. */
  ghost predicate Latest(sightings: seq<Connector>, k: int, x: Connector) {
    && 0 <= k < |sightings| && sightings[k] == x
    && forall j :: k < j < |sightings| ==> !TakesOver(sightings[j], x)
  }

  predicate TakesOver(c: Connector, x: Connector) {
    c.name == x.name || (c.identity.Some? && c.identity == x.identity)
  }

  lemma NotedExactly(known: seq<Connector>, c: Connector, x: Connector)
    requires DistinctNames(known) && DistinctIdentities(known)
    ensures x in Noted(known, c) <==> x == c || (x in known && !TakesOver(c, x))
  {
    if c.identity.Some? {
      WithoutIdentityDistinct(known, c.identity.value, c.name);
    }
    if x in known && !TakesOver(c, x) {
      NotedKeeps(known, c, x);
    }
  }

  ghost predicate IsLatest(sightings: seq<Connector>, x: Connector) {
    exists k :: Latest(sightings, k, x)
  }

  lemma LatestSnoc(sightings: seq<Connector>, c: Connector, x: Connector)
    ensures IsLatest(sightings + [c], x) <==> x == c || (IsLatest(sightings, x) && !TakesOver(c, x))
  {
    var n, all := |sightings|, sightings + [c];
    if x == c {
      assert Latest(all, n, x);
    } else {
      assert all[n] == c && forall j :: 0 <= j < n ==> all[j] == sightings[j];
      forall k ensures Latest(all, k, x) <==> Latest(sightings, k, x) && !TakesOver(c, x) {
      }
    }
  }

  /** After any sightings exactly those are remembered that nothing has taken over since. */
  lemma {:induction false} NotedAreLatest(sightings: seq<Connector>, x: Connector)
    ensures x in NotedAll([], sightings) <==> IsLatest(sightings, x)
    decreases |sightings|
  {
    if sightings != [] {
      var before, c := sightings[..|sightings| - 1], sightings[|sightings| - 1];
      NotedAllDistinct([], before);
      NotedExactly(NotedAll([], before), c, x);
      NotedAreLatest(before, x);
      LatestSnoc(before, c, x);
      assert before + [c] == sightings;
    }
  }

  lemma {:induction false} NotedInParts(known: seq<Connector>, a: seq<Connector>, b: seq<Connector>)
    ensures NotedAll(known, a + b) == NotedAll(NotedAll(known, a), b)
    decreases |b|
  {
    if b == [] {
      assert a + b == a;
    } else {
      var n := |b| - 1;
      assert (a + b)[..|a + b| - 1] == a + b[..n];
      NotedInParts(known, a, b[..n]);
    }
  }

  /** Everything shown over a run of rounds, in order. */
  function Sightings(rounds: seq<seq<Connector>>): seq<Connector> {
    if rounds == [] then [] else Sightings(rounds[..|rounds| - 1]) + rounds[|rounds| - 1]
  }

  lemma {:induction false} RememberedAtOnce(rounds: seq<seq<Connector>>)
    ensures Remembered(rounds) == NotedAll([], Sightings(rounds))
    decreases |rounds|
  {
    if rounds != [] {
      RememberedAtOnce(rounds[..|rounds| - 1]);
      NotedInParts([], Sightings(rounds[..|rounds| - 1]), rounds[|rounds| - 1]);
    }
  }

  /** What is remembered after any run of rounds, read off everything that was ever shown. */
  lemma RememberedExactly(rounds: seq<seq<Connector>>, x: Connector)
    ensures x in Remembered(rounds) <==> IsLatest(Sightings(rounds), x)
  {
    RememberedAtOnce(rounds);
    NotedAreLatest(Sightings(rounds), x);
  }

  // ---------------------------------------------------------------- matching across renames

  function WithIdentity(known: seq<Connector>, id: string): (r: seq<Connector>)
    ensures forall c :: c in r <==> c in known && c.identity == Some(id)
  {
    if known == [] then []
    else if known[0].identity == Some(id) then [known[0]] + WithIdentity(known[1..], id)
    else WithIdentity(known[1..], id)
  }

  function FirstNameless(known: seq<Connector>, name: string): (r: Option<Connector>)
    ensures r.Some? ==> r.value in known && r.value.name == name && r.value.identity.None?
    ensures r.None? ==> forall c :: c in known ==> !(c.name == name && c.identity.None?)
  {
    if known == [] then None
    else if known[0].name == name && known[0].identity.None? then Some(known[0])
    else FirstNameless(known[1..], name)
  }

  /** The remembered output a current one continues; several owners of one identity match nothing. */
  function MatchingPrevious(current: Connector, known: seq<Connector>): Option<Connector> {
    match current.identity
    case Some(id) =>
      var matches := WithIdentity(known, id);
      if |matches| == 1 then Some(matches[0]) else None
    case None => FirstNameless(known, current.name)
  }

  lemma {:induction false} NoOwner(known: seq<Connector>, id: string)
    requires forall c :: c in known ==> c.identity != Some(id)
    ensures WithIdentity(known, id) == []
  {
    if known != [] {
      assert known[0] in known;
      NoOwner(known[1..], id);
    }
  }

  lemma {:induction false} OneOwner(known: seq<Connector>, id: string)
    requires DistinctIdentities(known)
    ensures |WithIdentity(known, id)| <= 1
  {
    if known != [] {
      assert DistinctIdentities(known[1..]);
      OneOwner(known[1..], id);
      forall c | c in known[1..] && known[0].identity == Some(id) ensures c.identity != Some(id) {
        var j :| 0 <= j < |known[1..]| && known[1..][j] == c;
        assert known[0].identity != known[j + 1].identity;
      }
      if known[0].identity == Some(id) {
        NoOwner(known[1..], id);
      }
    }
  }

  /**
   * Over any run of rounds an identity is never ambiguous, so it matches exactly when it has been seen;
   * and two different outputs of one snapshot never continue the same remembered one.
   */
  lemma MatchingIsPartialInjection(rounds: seq<seq<Connector>>, snapshot: seq<Connector>, a: Connector, b: Connector)
    requires DistinctNames(snapshot) && DistinctIdentities(snapshot) && a in snapshot && b in snapshot
    ensures a.identity.Some? ==>
              (MatchingPrevious(a, Remembered(rounds)).Some?
               <==> exists c :: c in Remembered(rounds) && c.identity == a.identity)
    ensures var known := Remembered(rounds);
            MatchingPrevious(a, known).Some? && MatchingPrevious(a, known) == MatchingPrevious(b, known) ==> a == b
  {
    var known := Remembered(rounds);
    RememberedDistinct(rounds);
    if a.identity.Some? {
      OneOwner(known, a.identity.value);
      MatchesSeen(known, a);
    }
    if b.identity.Some? {
      OneOwner(known, b.identity.value);
      MatchesSeen(known, b);
    }
    SameOutput(snapshot, a, b);
  }

  /** The current output is the remembered one: the same identity, or the same name and none on either. */
  predicate Continues(current: Connector, x: Connector) {
    if current.identity.Some? then x.identity == current.identity
    else x.name == current.name && x.identity.None?
  }

  /** A current output is matched with the latest sighting it continues, unless that was taken over. */
  lemma MatchedIsLatest(rounds: seq<seq<Connector>>, current: Connector, x: Connector)
    ensures MatchingPrevious(current, Remembered(rounds)) == Some(x)
            <==> Continues(current, x) && IsLatest(Sightings(rounds), x)
  {
    var known := Remembered(rounds);
    RememberedDistinct(rounds);
    RememberedExactly(rounds, x);
    if current.identity.Some? {
      OneOwner(known, current.identity.value);
      MatchesSeen(known, current);
    }
    if x in known && Continues(current, x) {
      var y := MatchingPrevious(current, known).value;
      assert y in known && Continues(current, y);
      OnlyOne(known, current, x, y);
    }
  }

  lemma OnlyOne(known: seq<Connector>, current: Connector, x: Connector, y: Connector)
    requires DistinctNames(known) && DistinctIdentities(known) && x in known && y in known
    requires Continues(current, x) && Continues(current, y)
    ensures x == y
  {
    var i :| 0 <= i < |known| && known[i] == x;
    var j :| 0 <= j < |known| && known[j] == y;
  }

  lemma MatchesSeen(known: seq<Connector>, c: Connector)
    requires c.identity.Some? && |WithIdentity(known, c.identity.value)| <= 1
    ensures MatchingPrevious(c, known).Some? <==> exists x :: x in known && x.identity == c.identity
    ensures MatchingPrevious(c, known).Some? ==> MatchingPrevious(c, known).value.identity == c.identity
  {
    var matches := WithIdentity(known, c.identity.value);
    if matches != [] {
      assert matches[0] in matches;
    }
    if x :| x in known && x.identity == c.identity {
      assert x in matches;
    }
  }

  lemma SameOutput(snapshot: seq<Connector>, a: Connector, b: Connector)
    requires DistinctNames(snapshot) && DistinctIdentities(snapshot) && a in snapshot && b in snapshot
    ensures a.name == b.name || (a.identity.Some? && a.identity == b.identity) ==> a == b
  {
  }
}
