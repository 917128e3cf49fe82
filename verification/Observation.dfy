/** Live ownership evidence becomes the planner's running list. */
module Observation {
  import opened Prelude
  import opened Capabilities
  import opened Planner
  import opened DisplayState

  datatype Ownership = Occupied(backend: Backend) | Vacant | Uncertain

  /** One observation pass: an entry per connected output, in order. */
  datatype OwnershipSnapshot = OwnershipSnapshot(outputs: seq<(string, Ownership)>, implicated: seq<Backend>,
        inspectionFailed: bool)

  datatype ObservationError =
    | InspectionFailed
    | UncertainOwnership(outputs: seq<string>)
    | InvalidState(error: ParseError)

  ghost predicate Observes(snapshot: OwnershipSnapshot, known: seq<string>) {
    |snapshot.outputs| == |known| && forall i :: 0 <= i < |known| ==> snapshot.outputs[i].0 == known[i]
  }

  /** What was seen on an output. */
  function Owner(outputs: seq<(string, Ownership)>, o: string): (r: Option<Ownership>)
    ensures r.Some? ==> (o, r.value) in outputs
  {
    if outputs == [] then None else if outputs[0].0 == o then Some(outputs[0].1) else Owner(outputs[1..], o)
  }

  /** Definite observations are true; an uncertain one says nothing. */
  ghost predicate Truthful(outputs: seq<(string, Ownership)>, w: map<string, Backend>) {
    forall i :: 0 <= i < |outputs| ==>
      match outputs[i].1
      case Occupied(b) => Get(w, outputs[i].0) == Some(b)
      case Vacant => outputs[i].0 !in w
      case Uncertain => true
  }

  /** The occupant assumed on an output: live evidence first, the saved claim only when unsure. */
  function Overlaid(saved: Option<Backend>, seen: Option<Ownership>): Option<Backend> {
    match seen
    case Some(Occupied(b)) => Some(b)
    case Some(Vacant) => None
    case _ => saved
  }

  lemma {:induction false} OwnerFound(seen: seq<(string, Ownership)>, o: string)
    requires exists i :: 0 <= i < |seen| && seen[i].0 == o
    ensures Owner(seen, o).Some?
  {
    if seen[0].0 != o {
      var i :| 0 <= i < |seen| && seen[i].0 == o;
      assert seen[1..][i - 1].0 == o;
      OwnerFound(seen[1..], o);
    }
  }

  lemma {:induction false} OwnerSnoc(outputs: seq<(string, Ownership)>, entry: (string, Ownership), o: string)
    ensures Owner(outputs + [entry], o)
         == if Owner(outputs, o).Some? then Owner(outputs, o) else if entry.0 == o then Some(entry.1) else None
  {
    if outputs == [] {
      assert outputs + [entry] == [entry] && [entry][1..] == [];
    } else {
      assert (outputs + [entry])[1..] == outputs[1..] + [entry];
      OwnerSnoc(outputs[1..], entry, o);
    }
  }

  lemma {:induction false} OwnerOfLater(outputs: seq<(string, Ownership)>, o: string)
    requires forall i :: 0 <= i < |outputs| ==> outputs[i].0 != o
    ensures Owner(outputs, o) == None
  {
    if outputs != [] {
      OwnerOfLater(outputs[1..], o);
    }
  }

  /** The list after overlaying the entries seen so far on the saved expansion. */
  ghost predicate Overlays(saved: seq<RunningAssignment>, seen: seq<(string, Ownership)>, known: seq<string>,
        list: seq<RunningAssignment>) {
    && UniqueOutputs(list)
    && (forall a :: a in list ==> a.output in known)
    && forall o :: Lookup(list, o) == Overlaid(Lookup(saved, o), Owner(seen, o))
  }

  function OverlayEntry(list: seq<RunningAssignment>, entry: (string, Ownership)): seq<RunningAssignment> {
    match entry.1
    case Occupied(b) => Upsert(list, entry.0, b)
    case Vacant => Drop(list, entry.0)
    case Uncertain => list
  }

  lemma OverlayNext(saved: seq<RunningAssignment>, seen: seq<(string, Ownership)>, known: seq<string>,
        list: seq<RunningAssignment>, entry: (string, Ownership))
    requires Overlays(saved, seen, known, list) && entry.0 in known && Owner(seen, entry.0).None?
    ensures Overlays(saved, seen + [entry], known, OverlayEntry(list, entry))
  {
    forall o ensures Lookup(OverlayEntry(list, entry), o) == Overlaid(Lookup(saved, o), Owner(seen + [entry], o)) {
      OwnerSnoc(seen, entry, o);
      match entry.1 {
        case Occupied(b) => UpsertLookup(list, entry.0, b, o);
        case Vacant => DropLookup(list, entry.0, o);
        case Uncertain =>
      }
    }
    match entry.1 {
      case Occupied(b) => UpsertUnique(list, entry.0, b);
      case Vacant => DropUnique(list, entry.0);
      case Uncertain =>
    }
  }

  lemma OverlayAt(saved: seq<RunningAssignment>, snapshot: OwnershipSnapshot, known: seq<string>,
        list: seq<RunningAssignment>, i: nat)
    requires Distinct(known) && Observes(snapshot, known) && i < |known|
    requires Overlays(saved, snapshot.outputs[..i], known, list)
    ensures Overlays(saved, snapshot.outputs[..i + 1], known, OverlayEntry(list, snapshot.outputs[i]))
  {
    OwnerOfLater(snapshot.outputs[..i], known[i]);
    OverlayNext(saved, snapshot.outputs[..i], known, list, snapshot.outputs[i]);
    assert snapshot.outputs[..i + 1] == snapshot.outputs[..i] + [snapshot.outputs[i]];
  }

  /** A valid list of connected outputs passes every planner check on running assignments. */
  lemma NeverRejected(list: seq<RunningAssignment>, known: seq<string>)
    requires ValidKnown(known) && UniqueOutputs(list) && forall a :: a in list ==> a.output in known
    ensures ValidRunning(list, known)
  {
  }

  method OverlaySaved(rows: seq<Row>, known: seq<string>, snapshot: OwnershipSnapshot)
      returns (r: Result<seq<RunningAssignment>, ObservationError>)
    requires UniqueTargets(rows) && ValidKnown(known) && Observes(snapshot, known)
    ensures r.Success? <==> Expandable(rows, known)
    ensures r.Success? ==> ValidRunning(r.value, known)
    ensures r.Success? ==>
              forall o :: Lookup(r.value, o) == Overlaid(SavedBackend(rows, known, o), Owner(snapshot.outputs, o))
    ensures r.Failure? ==> r.error.InvalidState? && ParseStateBackend(r.error.error.raw).None?
  {
    var expanded := RunningFromDisplayState(rows, known);
    if expanded.Failure? {
      return Failure(InvalidState(expanded.error));
    }
    var list := expanded.value;
    ghost var saved := expanded.value;
    assert snapshot.outputs[..0] == [];
    forall a | a in list ensures a.output in known {
      assert Lookup(list, a.output).Some?;
    }
    for i := 0 to |known|
      invariant Overlays(saved, snapshot.outputs[..i], known, list)
    {
      OverlayAt(saved, snapshot, known, list, i);
      list := OverlayEntry(list, snapshot.outputs[i]);
    }
    assert snapshot.outputs[..|known|] == snapshot.outputs;
    NeverRejected(list, known);
    return Success(list);
  }

  method OccupiedOnly(known: seq<string>, snapshot: OwnershipSnapshot)
      returns (r: Result<seq<RunningAssignment>, ObservationError>)
    requires ValidKnown(known) && Observes(snapshot, known)
    ensures r.Success? <==> forall i :: 0 <= i < |known| ==> !snapshot.outputs[i].1.Uncertain?
    ensures r.Success? ==> ValidRunning(r.value, known)
    ensures r.Success? ==> forall o :: Lookup(r.value, o) == Overlaid(None, Owner(snapshot.outputs, o))
    ensures r.Failure? ==>
              r.error.UncertainOwnership? && forall o :: o in r.error.outputs <==> (o, Uncertain) in snapshot.outputs
  {
    var uncertain: seq<string> := [];
    var running: seq<RunningAssignment> := [];
    for i := 0 to |known|
      invariant UniqueOutputs(running) && forall a :: a in running ==> a.output in known[..i]
      invariant forall o :: o in uncertain <==> (o, Uncertain) in snapshot.outputs[..i]
      invariant forall o :: Lookup(running, o) == Overlaid(None, Owner(snapshot.outputs[..i], o))
    {
      var entry := snapshot.outputs[i];
      ghost var before := running;
      OwnerOfLater(snapshot.outputs[..i], known[i]);
      match entry.1 {
        case Occupied(b) => running := running + [RunningAssignment(entry.0, b)];
        case Vacant =>
        case Uncertain => uncertain := uncertain + [entry.0];
      }
      assert snapshot.outputs[..i + 1] == snapshot.outputs[..i] + [entry];
      forall o ensures Lookup(running, o) == Overlaid(None, Owner(snapshot.outputs[..i + 1], o)) {
        OwnerSnoc(snapshot.outputs[..i], entry, o);
        if entry.1.Occupied? {
          LookupSnoc(before, RunningAssignment(entry.0, entry.1.backend), o);
        }
      }
    }
    assert snapshot.outputs[..|known|] == snapshot.outputs && known[..|known|] == known;
    if uncertain != [] {
      assert uncertain[0] in uncertain;
      return Failure(UncertainOwnership(uncertain));
    }
    forall j | 0 <= j < |known| ensures !snapshot.outputs[j].1.Uncertain? {
      assert snapshot.outputs[j] in snapshot.outputs && snapshot.outputs[j].0 !in uncertain;
    }
    NeverRejected(running, known);
    return Success(running);
  }

  lemma {:induction false} LookupSnoc(list: seq<RunningAssignment>, a: RunningAssignment, o: string)
    ensures Lookup(list + [a], o)
         == if Lookup(list, o).Some? then Lookup(list, o) else if a.output == o then Some(a.backend) else None
  {
    if list == [] {
      assert list + [a] == [a] && [a][1..] == [];
    } else {
      assert (list + [a])[1..] == list[1..] + [a];
      LookupSnoc(list[1..], a, o);
    }
  }

  /**
   * The planner's running list for a target. Named targets need certainty everywhere; All Displays
   * falls back to the saved claim of an uncertain output. Either way the planner never rejects the
   * list itself.
   */
  method RunningAssignmentsFromObservation(target: DisplayTarget, rows: seq<Row>, known: seq<string>,
        snapshot: OwnershipSnapshot)
    returns (r: Result<seq<RunningAssignment>, ObservationError>)
    requires UniqueTargets(rows) && ValidKnown(known) && Observes(snapshot, known)
    ensures r.Success? <==> (
                && !snapshot.inspectionFailed
                && (if target.AllDisplays? then Expandable(rows, known)
                    else forall i :: 0 <= i < |known| ==> !snapshot.outputs[i].1.Uncertain?))
    ensures r == Failure(InspectionFailed) <==> snapshot.inspectionFailed
    ensures r.Failure? && r.error.UncertainOwnership? ==>
              !target.AllDisplays? && forall o :: o in r.error.outputs <==> (o, Uncertain) in snapshot.outputs
    ensures r.Failure? && r.error.InvalidState? ==>
              target.AllDisplays? && ParseStateBackend(r.error.error.raw).None?
    ensures r.Success? ==> ValidRunning(r.value, known)
    ensures r.Success? ==>
              forall o :: Lookup(r.value, o)
                == Overlaid(if target.AllDisplays? then SavedBackend(rows, known, o) else None,
                      Owner(snapshot.outputs, o))
  {
    if snapshot.inspectionFailed {
      return Failure(InspectionFailed);
    }
    if target.AllDisplays? {
      r := OverlaySaved(rows, known, snapshot);
    } else {
      r := OccupiedOnly(known, snapshot);
    }
  }
}
