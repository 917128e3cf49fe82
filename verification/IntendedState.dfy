/** The rows an apply leaves behind, over whole histories of applies with changing displays. */
module IntendedState {
  import opened Prelude
  import opened Planner
  import opened DisplayState

  /**
   * A committed apply. `ownPath` is there when the outputs' saved options differ: then an apply to all
   * displays also commits a row of its own for each of them, with the path of the recipe.
   */
  datatype ApplyEvent = ApplyEvent(target: DisplayTarget, known: seq<string>, path: string, backend: string,
        ownPath: Option<string>)

  /** Rows of the outputs that are not connected. */
  function Disconnected(rows: seq<Row>, known: seq<string>): (r: seq<Row>)
    ensures forall row :: row in r ==> row in rows && row.target.OutputRow? && row.target.name !in known
  {
    if rows == [] then []
    else
      var rest := Disconnected(rows[1..], known);
      if rows[0].target.OutputRow? && rows[0].target.name !in known then [rows[0]] + rest else rest
  }

  /** Rows of everything but the selected outputs. */
  function Unselected(rows: seq<Row>, selected: seq<string>): (r: seq<Row>)
    ensures forall row :: row in r ==> row in rows && (row.target.AllRow? || row.target.name !in selected)
  {
    if rows == [] then []
    else
      var rest := Unselected(rows[1..], selected);
      if rows[0].target.AllRow? || rows[0].target.name !in selected then [rows[0]] + rest else rest
  }

  /** The rows that stay keep their order. */
  lemma {:induction false} KeptInOrder(rows: seq<Row>, names: seq<string>)
    ensures KeepsOrder(Unselected(rows, names), rows) && KeepsOrder(Disconnected(rows, names), rows)
  {
    if rows != [] {
      KeptInOrder(rows[1..], names);
      KeepsOrderNext(rows[0], Unselected(rows[1..], names), rows[1..]);
      KeepsOrderNext(rows[0], Disconnected(rows[1..], names), rows[1..]);
      assert [rows[0]] + rows[1..] == rows;
    }
  }

  function RowsFor(selected: seq<string>, path: string, backend: string): (r: seq<Row>)
    ensures |r| == |selected| && forall i :: 0 <= i < |r| ==> r[i] == Row(OutputRow(selected[i]), path, backend)
  {
    if selected == [] then [] else [Row(OutputRow(selected[0]), path, backend)] + RowsFor(selected[1..], path, backend)
  }

  function Intended(previous: seq<Row>, e: ApplyEvent): seq<Row> {
    match e.target
    case AllDisplays =>
      [Row(AllRow, e.path, e.backend)] + Disconnected(previous, e.known)
      + if e.ownPath.Some? then RowsFor(e.known, e.ownPath.value, e.backend) else []
    case Output(o) => Unselected(previous, [o]) + RowsFor([o], e.path, e.backend)
    case Outputs(os) => Unselected(previous, os) + RowsFor(os, e.path, e.backend)
  }

  method KeepDisconnected(first: seq<Row>, previous: seq<Row>, known: seq<string>) returns (rows: seq<Row>)
    ensures rows == first + Disconnected(previous, known)
  {
    rows := first;
    for i := 0 to |previous|
      invariant rows + Disconnected(previous[i..], known) == first + Disconnected(previous, known)
    {
      ghost var tail := Disconnected(previous[i + 1..], known);
      assert previous[i..][0] == previous[i] && previous[i..][1..] == previous[i + 1..];
      if previous[i].target.OutputRow? && previous[i].target.name !in known {
        assert rows + ([previous[i]] + tail) == rows + [previous[i]] + tail;
        rows := rows + [previous[i]];
      }
    }
    assert rows + [] == rows;
  }

  method AddSelected(kept: seq<Row>, selected: seq<string>, path: string, backend: string) returns (rows: seq<Row>)
    ensures rows == kept + RowsFor(selected, path, backend)
  {
    var added: seq<Row> := [];
    for i := 0 to |selected|
      invariant |added| == i && forall j :: 0 <= j < i ==> added[j] == Row(OutputRow(selected[j]), path, backend)
    {
      added := added + [Row(OutputRow(selected[i]), path, backend)];
    }
    assert added == RowsFor(selected, path, backend);
    rows := kept + added;
  }

  /** Adds a row for each output that has none yet; of distinct outputs without rows, for each. */
  method AddMissing(kept: seq<Row>, outputs: seq<string>, path: string, backend: string) returns (rows: seq<Row>)
    requires Distinct(outputs) && forall row :: row in kept ==> row.target.AllRow? || row.target.name !in outputs
    ensures rows == kept + RowsFor(outputs, path, backend)
  {
    rows := kept;
    ghost var added := RowsFor(outputs, path, backend);
    for i := 0 to |outputs|
      invariant rows == kept + added[..i]
    {
      assert forall row :: row in added[..i] ==> row.target != OutputRow(outputs[i]);
      if forall row :: row in rows ==> row.target != OutputRow(outputs[i]) {
        assert added[..i + 1] == added[..i] + [added[i]];
        rows := rows + [Row(OutputRow(outputs[i]), path, backend)];
      }
    }
    assert added[..|outputs|] == added;
  }

  /** The loop form of `Intended`. */
  method IntendedDisplayState(previous: seq<Row>, e: ApplyEvent) returns (rows: seq<Row>)
    requires e.target.AllDisplays? && e.ownPath.Some? ==> Distinct(e.known)
    ensures rows == Intended(previous, e)
  {
    match e.target {
      case AllDisplays =>
        rows := KeepDisconnected([Row(AllRow, e.path, e.backend)], previous, e.known);
        if e.ownPath.Some? {
          rows := AddMissing(rows, e.known, e.ownPath.value, e.backend);
        }
      case Output(o) =>
        rows := AddSelected(Unselected(previous, [o]), [o], e.path, e.backend);
      case Outputs(os) =>
        rows := AddSelected(Unselected(previous, os), os, e.path, e.backend);
    }
  }

  // ---------------------------------------------------------------- one apply

  ghost predicate WellTargeted(e: ApplyEvent) {
    && (e.target.Outputs? ==> Distinct(e.target.names))
    && (e.target.AllDisplays? && e.ownPath.Some? ==> Distinct(e.known))
  }

  /** The apply commits a row for the output itself. */
  predicate GetsRow(e: ApplyEvent, o: string) {
    || (e.target.Output? && e.target.name == o) || (e.target.Outputs? && o in e.target.names)
    || (e.target.AllDisplays? && e.ownPath.Some? && o in e.known)
  }

  /** The apply replaces a connected output's own row by the template. */
  predicate Absorbs(e: ApplyEvent, o: string) {
    e.target.AllDisplays? && e.ownPath.None? && o in e.known
  }

  /** The path the apply commits for the output. */
  function PathFor(e: ApplyEvent, o: string): string {
    if e.target.AllDisplays? && e.ownPath.Some? && o in e.known then e.ownPath.value else e.path
  }

  /** The apply decides what the output shows, given whether the output had a row of its own. */
  predicate Covers(e: ApplyEvent, o: string, hadOwnRow: bool) {
    GetsRow(e, o) || (e.target.AllDisplays? && (o in e.known || !hadOwnRow))
  }

  lemma {:induction false} FindConcat(a: seq<Row>, b: seq<Row>, t: StateTarget)
    ensures Find(a + b, t) == if Find(a, t).Some? then Find(a, t) else Find(b, t)
  {
    if a == [] {
      assert a + b == b;
    } else {
      assert (a + b)[1..] == a[1..] + b;
      FindConcat(a[1..], b, t);
    }
  }

  lemma {:induction false} FindDisconnected(rows: seq<Row>, known: seq<string>, t: StateTarget)
    ensures Find(Disconnected(rows, known), t) == if t.OutputRow? && t.name !in known then Find(rows, t) else None
  {
    if rows != [] {
      FindDisconnected(rows[1..], known, t);
    }
  }

  lemma {:induction false} FindUnselected(rows: seq<Row>, selected: seq<string>, t: StateTarget)
    ensures Find(Unselected(rows, selected), t) == if t.AllRow? || t.name !in selected then Find(rows, t) else None
  {
    if rows != [] {
      FindUnselected(rows[1..], selected, t);
    }
  }

  lemma FindRowsFor(selected: seq<string>, path: string, backend: string, t: StateTarget)
    ensures Find(RowsFor(selected, path, backend), t)
         == if t.OutputRow? && t.name in selected then Some(Row(t, path, backend)) else None
  {
    var rows := RowsFor(selected, path, backend);
    if t.OutputRow? && t.name in selected {
      var i :| 0 <= i < |selected| && selected[i] == t.name;
      assert rows[i] in rows;
    }
  }

  /** Every row after one apply: the rows it gives are new, absorbed rows are gone, all others untouched. */
  lemma RowAfterApply(previous: seq<Row>, e: ApplyEvent, o: string)
    ensures Find(Intended(previous, e), OutputRow(o))
         == if GetsRow(e, o) then Some(Row(OutputRow(o), PathFor(e, o), e.backend))
            else if Absorbs(e, o) then None
            else Find(previous, OutputRow(o))
    ensures Find(Intended(previous, e), AllRow)
         == if e.target.AllDisplays? then Some(Row(AllRow, e.path, e.backend)) else Find(previous, AllRow)
  {
    match e.target {
      case AllDisplays =>
        var kept := [Row(AllRow, e.path, e.backend)] + Disconnected(previous, e.known);
        FindDisconnected(previous, e.known, OutputRow(o));
        if e.ownPath.Some? {
          var own := RowsFor(e.known, e.ownPath.value, e.backend);
          FindConcat(kept, own, OutputRow(o));
          FindConcat(kept, own, AllRow);
          FindRowsFor(e.known, e.ownPath.value, e.backend, OutputRow(o));
        } else {
          assert kept + [] == kept;
        }
      case Output(name) =>
        AfterSelection(previous, [name], e, OutputRow(o));
        AfterSelection(previous, [name], e, AllRow);
      case Outputs(os) =>
        AfterSelection(previous, os, e, OutputRow(o));
        AfterSelection(previous, os, e, AllRow);
    }
  }

  lemma AfterSelection(previous: seq<Row>, selected: seq<string>, e: ApplyEvent, t: StateTarget)
    ensures Find(Unselected(previous, selected) + RowsFor(selected, e.path, e.backend), t)
         == if t.OutputRow? && t.name in selected then Some(Row(t, e.path, e.backend)) else Find(previous, t)
  {
    FindConcat(Unselected(previous, selected), RowsFor(selected, e.path, e.backend), t);
    FindUnselected(previous, selected, t);
    FindRowsFor(selected, e.path, e.backend, t);
  }

  lemma {:induction false} DisconnectedUnique(rows: seq<Row>, known: seq<string>)
    requires UniqueTargets(rows)
    ensures UniqueTargets(Disconnected(rows, known))
  {
    if rows != [] {
      DisconnectedUnique(rows[1..], known);
      var rest := Disconnected(rows[1..], known);
      forall j | 0 <= j < |rest| ensures rest[j].target != rows[0].target {
        assert rest[j] in rows[1..];
      }
    }
  }

  lemma {:induction false} UnselectedUnique(rows: seq<Row>, selected: seq<string>)
    requires UniqueTargets(rows)
    ensures UniqueTargets(Unselected(rows, selected))
  {
    if rows != [] {
      UnselectedUnique(rows[1..], selected);
      var rest := Unselected(rows[1..], selected);
      forall j | 0 <= j < |rest| ensures rest[j].target != rows[0].target {
        assert rest[j] in rows[1..];
      }
    }
  }

  lemma AddedUnique(kept: seq<Row>, outputs: seq<string>, path: string, backend: string)
    requires UniqueTargets(kept) && Distinct(outputs)
    requires forall row :: row in kept ==> row.target.AllRow? || row.target.name !in outputs
    ensures UniqueTargets(kept + RowsFor(outputs, path, backend))
  {
    var added := RowsFor(outputs, path, backend);
    forall i, j | 0 <= i < |kept| && 0 <= j < |added| ensures kept[i].target != added[j].target {
      assert kept[i] in kept && outputs[j] in outputs;
    }
  }

  lemma SelectionUnique(previous: seq<Row>, selected: seq<string>, path: string, backend: string)
    requires UniqueTargets(previous) && Distinct(selected)
    ensures UniqueTargets(Unselected(previous, selected) + RowsFor(selected, path, backend))
  {
    UnselectedUnique(previous, selected);
    AddedUnique(Unselected(previous, selected), selected, path, backend);
  }

  lemma IntendedUnique(previous: seq<Row>, e: ApplyEvent)
    requires UniqueTargets(previous) && WellTargeted(e)
    ensures UniqueTargets(Intended(previous, e))
  {
    match e.target {
      case AllDisplays =>
        DisconnectedUnique(previous, e.known);
        var rest := Disconnected(previous, e.known);
        var kept := [Row(AllRow, e.path, e.backend)] + rest;
        assert forall j :: 0 <= j < |rest| ==> rest[j] in rest;
        if e.ownPath.Some? {
          AddedUnique(kept, e.known, e.ownPath.value, e.backend);
        }
      case Output(o) => SelectionUnique(previous, [o], e.path, e.backend);
      case Outputs(os) => SelectionUnique(previous, os, e.path, e.backend);
    }
  }

  // ---------------------------------------------------------------- histories

  function After(initial: seq<Row>, history: seq<ApplyEvent>): seq<Row> {
    if history == [] then initial
    else Intended(After(initial, history[..|history| - 1]), history[|history| - 1])
  }

  /** Given a row of its own in apply `m`, and not absorbed in any apply after it and before `n`. */
  ghost predicate OwnSince(history: seq<ApplyEvent>, m: int, n: nat, o: string)
    requires n <= |history|
  {
    0 <= m < n && GetsRow(history[m], o) && forall k :: m < k < n ==> !Absorbs(history[k], o)
  }

  /** Read off the history alone: given a row last, or having one at the start and never absorbed since. */
  ghost predicate HasOwnRow(history: seq<ApplyEvent>, n: nat, o: string, initially: bool)
    requires n <= |history|
  {
    || (exists m :: OwnSince(history, m, n, o))
    || (initially && forall k :: 0 <= k < n ==> !Absorbs(history[k], o))
  }

  ghost predicate LastCovering(history: seq<ApplyEvent>, j: nat, o: string, initially: bool) {
    && j < |history|
    && Covers(history[j], o, HasOwnRow(history, j, o, initially))
    && forall k :: j < k < |history| ==> !Covers(history[k], o, HasOwnRow(history, k, o, initially))
  }

  lemma HasOwnRowNext(history: seq<ApplyEvent>, o: string, initially: bool)
    requires history != []
    ensures var n, e := |history| - 1, history[|history| - 1];
            HasOwnRow(history, n + 1, o, initially) <==>
                  GetsRow(e, o) || (!Absorbs(e, o) && HasOwnRow(history[..n], n, o, initially))
  {
    var n, e := |history| - 1, history[|history| - 1];
    HasOwnRowPrefix(history, n, n, o, initially);
    if GetsRow(e, o) {
      assert OwnSince(history, n, n + 1, o);
    }
    if m :| OwnSince(history, m, n, o) {
      assert !Absorbs(e, o) ==> OwnSince(history, m, n + 1, o);
    }
    var next := n + 1;
    if m :| OwnSince(history, m, next, o) {
      assert m < n ==> OwnSince(history, m, n, o);
    }
  }

  lemma HasOwnRowPrefix(history: seq<ApplyEvent>, n: nat, k: nat, o: string, initially: bool)
    requires k <= n <= |history|
    ensures HasOwnRow(history, k, o, initially) <==> HasOwnRow(history[..n], k, o, initially)
  {
    forall m ensures OwnSince(history, m, k, o) <==> OwnSince(history[..n], m, k, o) {
    }
  }

  /** Rows stay unique, and an output has its own row exactly when the history says so. */
  lemma {:induction false} OwnRowFollowsHistory(initial: seq<Row>, history: seq<ApplyEvent>, o: string)
    requires UniqueTargets(initial) && forall e :: e in history ==> WellTargeted(e)
    ensures UniqueTargets(After(initial, history))
    ensures Find(After(initial, history), OutputRow(o)).Some? <==>
              HasOwnRow(history, |history|, o, Find(initial, OutputRow(o)).Some?)
    decreases |history|
  {
    if history != [] {
      var n := |history| - 1;
      OwnRowFollowsHistory(initial, history[..n], o);
      HasOwnRowNext(history, o, Find(initial, OutputRow(o)).Some?);
      RowAfterApply(After(initial, history[..n]), history[n], o);
      IntendedUnique(After(initial, history[..n]), history[n]);
    }
  }

  lemma EffectiveAfterApply(previous: seq<Row>, e: ApplyEvent, o: string)
    ensures var now := Effective(Intended(previous, e), o);
            if Covers(e, o, Find(previous, OutputRow(o)).Some?) then Gives(now, e, o)
            else now == Effective(previous, o)
  {
    RowAfterApply(previous, e, o);
  }

  /** What an apply gives an output. */
  ghost predicate Gives(now: Option<Row>, e: ApplyEvent, o: string) {
    now.Some? && now.value.path == PathFor(e, o) && now.value.backend == e.backend
  }

  /** The effective assignment after a history, one apply back. */
  lemma LastApplyDecides(initial: seq<Row>, history: seq<ApplyEvent>, o: string)
    requires UniqueTargets(initial) && history != [] && forall e :: e in history ==> WellTargeted(e)
    ensures var n, own := |history| - 1, Find(initial, OutputRow(o)).Some?;
            var now := Effective(After(initial, history), o);
            if Covers(history[n], o, HasOwnRow(history, n, o, own)) then Gives(now, history[n], o)
            else now == Effective(After(initial, history[..n]), o)
  {
    var n, own := |history| - 1, Find(initial, OutputRow(o)).Some?;
    OwnRowFollowsHistory(initial, history[..n], o);
    HasOwnRowPrefix(history, n, n, o, own);
    EffectiveAfterApply(After(initial, history[..n]), history[n], o);
  }

  lemma LastCoveringPrefix(history: seq<ApplyEvent>, o: string, j: nat, initially: bool)
    requires LastCovering(history, j, o, initially) && j < |history| - 1
    ensures var n := |history| - 1;
            !Covers(history[n], o, HasOwnRow(history, n, o, initially)) && LastCovering(history[..n], j, o, initially)
  {
    var n := |history| - 1;
    var before := history[..n];
    HasOwnRowPrefix(history, n, j, o, initially);
    forall k | j < k < n ensures !Covers(before[k], o, HasOwnRow(before, k, o, initially)) {
      HasOwnRowPrefix(history, n, k, o, initially);
    }
  }

  /**
   * After any run of applies the effective assignment of every output, connected or not, is the one
   * of the last apply that covered it.
   */
  lemma {:induction false} EffectiveIsLastCovering(initial: seq<Row>, history: seq<ApplyEvent>, o: string, j: nat)
    requires UniqueTargets(initial) && forall e :: e in history ==> WellTargeted(e)
    requires LastCovering(history, j, o, Find(initial, OutputRow(o)).Some?)
    ensures var now := Effective(After(initial, history), o);
            Gives(now, history[j], o)
    decreases |history|
  {
    LastApplyDecides(initial, history, o);
    if j < |history| - 1 {
      LastCoveringPrefix(history, o, j, Find(initial, OutputRow(o)).Some?);
      EffectiveIsLastCovering(initial, history[..|history| - 1], o, j);
    }
  }

  /** An output no apply covered keeps its initial assignment. */
  lemma {:induction false} NeverCoveredIsUntouched(initial: seq<Row>, history: seq<ApplyEvent>, o: string)
    requires UniqueTargets(initial) && forall e :: e in history ==> WellTargeted(e)
    requires forall k :: 0 <= k < |history| ==>
               !Covers(history[k], o, HasOwnRow(history, k, o, Find(initial, OutputRow(o)).Some?))
    ensures Effective(After(initial, history), o) == Effective(initial, o)
    decreases |history|
  {
    if history != [] {
      var n, own := |history| - 1, Find(initial, OutputRow(o)).Some?;
      var before := history[..n];
      LastApplyDecides(initial, history, o);
      forall k | 0 <= k < n
        ensures before[k] == history[k] && (HasOwnRow(history, k, o, own) <==> HasOwnRow(before, k, o, own))
      {
        HasOwnRowPrefix(history, n, k, o, own);
      }
      NeverCoveredIsUntouched(initial, before, o);
    }
  }
}
