/** Saved display assignments: the effective row of an output, and four lookups that must agree on it. */
module DisplayState {
  import opened Prelude
  import opened Capabilities
  import opened Planner

  datatype StateTarget = AllRow | OutputRow(name: string)

  datatype Row = Row(target: StateTarget, path: string, backend: string)

  ghost predicate UniqueTargets(rows: seq<Row>) {
    forall i, j :: 0 <= i < j < |rows| ==> rows[i].target != rows[j].target
  }

  /** The first row of a target. */
  function Find(rows: seq<Row>, target: StateTarget): (r: Option<Row>)
    ensures r.None? <==> forall row :: row in rows ==> row.target != target
    ensures r.Some? ==> r.value in rows && r.value.target == target
  {
    if rows == [] then None
    else if rows[0].target == target then Some(rows[0])
    else
      assert forall row :: row in rows ==> row == rows[0] || row in rows[1..];
      Find(rows[1..], target)
  }

  /** The row that decides an output: its own, else the All Displays template. */
  function Effective(rows: seq<Row>, o: string): Option<Row> {
    if Find(rows, OutputRow(o)).Some? then Find(rows, OutputRow(o)) else Find(rows, AllRow)
  }

  function ParseStateBackend(raw: string): Option<Backend> {
    if raw == "awww" then Some(Awww)
    else if raw == "mpvpaper" then Some(Mpvpaper)
    else if raw == "swaybg" then Some(Swaybg)
    else if raw == "feh" then Some(Feh)
    else if raw == "linux-wallpaperengine" then Some(LinuxWallpaperEngine)
    else None
  }

  /** The name a backend goes by wherever it is written down. */
  function BackendName(b: Backend): string {
    match b
    case Awww => "awww"
    case Mpvpaper => "mpvpaper"
    case Swaybg => "swaybg"
    case Feh => "feh"
    case LinuxWallpaperEngine => "linux-wallpaperengine"
    case Unsupported => "unsupported"
  }

  /** The names are told apart, and parsing takes each of them back, save that of no renderer; and nothing else. */
  lemma ParsedIsNamed(raw: string, b: Backend, c: Backend)
    ensures ParseStateBackend(raw) == Some(b) <==> raw == BackendName(b) && !b.Unsupported?
    ensures BackendName(b) == BackendName(c) ==> b == c
  {
    NamesDiffer(b, c);
    NamesDiffer(b, Awww);
    NamesDiffer(b, Mpvpaper);
    NamesDiffer(b, Swaybg);
    NamesDiffer(b, Feh);
    NamesDiffer(b, LinuxWallpaperEngine);
  }

  /** No two names are of the same length. */
  lemma NamesDiffer(b: Backend, c: Backend)
    ensures b != c ==> BackendName(b) != BackendName(c)
  {
    assert b != c ==> |BackendName(b)| != |BackendName(c)|;
  }

  lemma {:induction false} FindSnoc(rows: seq<Row>, row: Row, target: StateTarget)
    ensures Find(rows + [row], target)
         == if Find(rows, target).Some? then Find(rows, target) else if row.target == target then Some(row) else None
  {
    if rows == [] {
      assert rows + [row] == [row] && [row][1..] == [];
    } else {
      assert (rows + [row])[1..] == rows[1..] + [row];
      FindSnoc(rows[1..], row, target);
    }
  }

  // ---------------------------------------------------------------- lists with one entry per output

  /** Overwrites the first entry of an output, or appends one. */
  function Upsert(list: seq<RunningAssignment>, o: string, b: Backend): (r: seq<RunningAssignment>)
    ensures forall a :: a in r ==> a in list || a == RunningAssignment(o, b)
  {
    if list == [] then [RunningAssignment(o, b)]
    else if list[0].output == o then [RunningAssignment(o, b)] + list[1..]
    else [list[0]] + Upsert(list[1..], o, b)
  }

  lemma {:induction false} UpsertLookup(list: seq<RunningAssignment>, o: string, b: Backend, x: string)
    ensures Lookup(Upsert(list, o, b), x) == if x == o then Some(b) else Lookup(list, x)
  {
    if list != [] && list[0].output != o {
      UpsertLookup(list[1..], o, b, x);
    }
  }

  lemma {:induction false} UpsertUnique(list: seq<RunningAssignment>, o: string, b: Backend)
    requires UniqueOutputs(list)
    ensures UniqueOutputs(Upsert(list, o, b))
  {
    if list != [] && list[0].output != o {
      UpsertUnique(list[1..], o, b);
      var rest := Upsert(list[1..], o, b);
      forall j | 0 <= j < |rest| ensures rest[j].output != list[0].output {
        assert rest[j] in rest;
      }
    }
  }

  /** Drops every entry of an output. */
  function Drop(list: seq<RunningAssignment>, o: string): (r: seq<RunningAssignment>)
    ensures forall a :: a in r <==> a in list && a.output != o
  {
    if list == [] then []
    else if list[0].output == o then Drop(list[1..], o)
    else [list[0]] + Drop(list[1..], o)
  }

  lemma {:induction false} DropLookup(list: seq<RunningAssignment>, o: string, x: string)
    ensures Lookup(Drop(list, o), x) == if x == o then None else Lookup(list, x)
  {
    if list != [] {
      DropLookup(list[1..], o, x);
    }
  }

  lemma {:induction false} DropUnique(list: seq<RunningAssignment>, o: string)
    requires UniqueOutputs(list)
    ensures UniqueOutputs(Drop(list, o))
  {
    if list != [] {
      DropUnique(list[1..], o);
      var rest := Drop(list[1..], o);
      forall j | 0 <= j < |rest| ensures rest[j].output != list[0].output {
        assert rest[j] in rest;
      }
    }
  }

  // ---------------------------------------------------------------- the four lookups

  datatype ParseError = UnsupportedStateBackend(raw: string)

  /** The saved backend of a connected output, when its row names a backend. */
  function SavedBackend(rows: seq<Row>, known: seq<string>, o: string): Option<Backend> {
    if o in known && Effective(rows, o).Some? then ParseStateBackend(Effective(rows, o).value.backend) else None
  }

  /** Every row that expansion looks at, used or overridden, must name a backend. */
  ghost predicate Expandable(rows: seq<Row>, known: seq<string>) {
    && (Find(rows, AllRow).Some? ==> ParseStateBackend(Find(rows, AllRow).value.backend).Some?)
    && forall row :: row in rows && row.target.OutputRow? && row.target.name in known ==>
         ParseStateBackend(row.backend).Some?
  }

  /** The row chosen for an output when only `seen` named rows have been looked at. */
  function Chosen(seen: seq<Row>, template: Option<Row>, o: string): Option<Row> {
    if Find(seen, OutputRow(o)).Some? then Find(seen, OutputRow(o)) else template
  }

  function ChosenBackend(seen: seq<Row>, template: Option<Row>, o: string): Option<Backend> {
    match Chosen(seen, template, o)
    case Some(row) => ParseStateBackend(row.backend)
    case None => None
  }

  lemma ChosenNext(rows: seq<Row>, i: nat, template: Option<Row>, o: string)
    requires UniqueTargets(rows) && i < |rows|
    ensures Chosen(rows[..i + 1], template, o)
         == if rows[i].target == OutputRow(o) then Some(rows[i]) else Chosen(rows[..i], template, o)
  {
    assert rows[..i + 1] == rows[..i] + [rows[i]];
    FindSnoc(rows[..i], rows[i], OutputRow(o));
    FirstOfItsTarget(rows, i);
  }

  /** The list built so far from the template and the named rows seen. */
  ghost predicate Expands(seen: seq<Row>, template: Option<Row>, known: seq<string>, list: seq<RunningAssignment>) {
    && UniqueOutputs(list)
    && (forall a :: a in list ==> a.output in known)
    && forall o :: o in known ==> Lookup(list, o) == ChosenBackend(seen, template, o)
  }

  lemma ExpandRow(rows: seq<Row>, i: nat, template: Option<Row>, known: seq<string>, list: seq<RunningAssignment>,
        b: Backend)
    requires UniqueTargets(rows) && i < |rows| && Expands(rows[..i], template, known, list)
    requires rows[i].target.OutputRow? && rows[i].target.name in known && ParseStateBackend(rows[i].backend) == Some(b)
    ensures Expands(rows[..i + 1], template, known, Upsert(list, rows[i].target.name, b))
  {
    var name := rows[i].target.name;
    UpsertUnique(list, name, b);
    forall o | o in known ensures Lookup(Upsert(list, name, b), o) == ChosenBackend(rows[..i + 1], template, o) {
      UpsertLookup(list, name, b, o);
      ChosenNext(rows, i, template, o);
    }
  }

  lemma SkipRow(rows: seq<Row>, i: nat, template: Option<Row>, known: seq<string>, list: seq<RunningAssignment>)
    requires UniqueTargets(rows) && i < |rows| && Expands(rows[..i], template, known, list)
    requires !(rows[i].target.OutputRow? && rows[i].target.name in known)
    ensures Expands(rows[..i + 1], template, known, list)
  {
    forall o | o in known ensures Lookup(list, o) == ChosenBackend(rows[..i + 1], template, o) {
      ChosenNext(rows, i, template, o);
    }
  }

  lemma ExpandedAll(rows: seq<Row>, known: seq<string>, list: seq<RunningAssignment>)
    requires Expands(rows, Find(rows, AllRow), known, list)
    ensures forall o :: Lookup(list, o) == SavedBackend(rows, known, o)
  {
  }

  method ExpandTemplate(known: seq<string>, template: Row) returns (r: Result<seq<RunningAssignment>, ParseError>)
    requires Distinct(known)
    ensures r.Success? <==> ParseStateBackend(template.backend).Some?
    ensures r.Success? ==> Expands([], Some(template), known, r.value)
    ensures r.Failure? ==> r.error.raw == template.backend
  {
    var backend := ParseStateBackend(template.backend);
    if backend.None? {
      return Failure(UnsupportedStateBackend(template.backend));
    }
    var list: seq<RunningAssignment> := [];
    for i := 0 to |known|
      invariant |list| == i && forall j :: 0 <= j < i ==> list[j] == RunningAssignment(known[j], backend.value)
    {
      list := list + [RunningAssignment(known[i], backend.value)];
    }
    ExpandedTemplate(list, known, backend.value);
    return Success(list);
  }

  /** Lookup 1: expand the rows into one running assignment per connected output. */
  method RunningFromDisplayState(rows: seq<Row>, known: seq<string>)
      returns (r: Result<seq<RunningAssignment>, ParseError>)
    requires UniqueTargets(rows) && Distinct(known)
    ensures r.Success? <==> Expandable(rows, known)
    ensures r.Success? ==> UniqueOutputs(r.value) && forall o :: Lookup(r.value, o) == SavedBackend(rows, known, o)
    ensures r.Failure? ==>
              ParseStateBackend(r.error.raw).None? && exists row :: row in rows && row.backend == r.error.raw
  {
    var list: seq<RunningAssignment> := [];
    var template := Find(rows, AllRow);
    if template.Some? {
      var expanded := ExpandTemplate(known, template.value);
      if expanded.Failure? {
        return expanded;
      }
      list := expanded.value;
    }
    assert rows[..0] == [];
    for i := 0 to |rows|
      invariant Expands(rows[..i], template, known, list)
      invariant forall j :: 0 <= j < i && rows[j].target.OutputRow? && rows[j].target.name in known ==>
                  ParseStateBackend(rows[j].backend).Some?
    {
      if rows[i].target.OutputRow? && rows[i].target.name in known {
        var backend := ParseStateBackend(rows[i].backend);
        if backend.None? {
          assert rows[i] in rows;
          return Failure(UnsupportedStateBackend(rows[i].backend));
        }
        ExpandRow(rows, i, template, known, list, backend.value);
        list := Upsert(list, rows[i].target.name, backend.value);
      } else {
        SkipRow(rows, i, template, known, list);
      }
    }
    assert rows[..|rows|] == rows;
    ExpandedAll(rows, known, list);
    return Success(list);
  }

  lemma ExpandedTemplate(list: seq<RunningAssignment>, known: seq<string>, b: Backend)
    requires Distinct(known) && |list| == |known| && forall j :: 0 <= j < |known| ==>
               list[j] == RunningAssignment(known[j], b)
    ensures UniqueOutputs(list) && forall o :: o in known ==> Lookup(list, o) == Some(b)
    ensures forall a :: a in list ==> a.output in known
  {
    forall o | o in known ensures Lookup(list, o) == Some(b) {
      var j :| 0 <= j < |known| && known[j] == o;
      assert list[j] in list;
    }
  }

  lemma FirstOfItsTarget(rows: seq<Row>, i: nat)
    requires UniqueTargets(rows) && i < |rows|
    ensures Find(rows[..i], rows[i].target).None?
  {
  }

  datatype Assignment = Assignment(backend: string, path: string, version: string)

  /** Lookup 2: the assignments the recovery watcher compares against. */
  function Assignments(rows: seq<Row>, outputs: seq<string>): map<string, Assignment> {
    map o | o in outputs && Effective(rows, o).Some? :: Assignment(Effective(rows, o).value.backend,
          Effective(rows, o).value.path, "")
  }

  datatype RestoreStep = RestoreStep(assignmentTarget: StateTarget, target: DisplayTarget, path: string,
        backend: Backend)

  /** Lookup 3: one restore step per connected output with a saved assignment. */
  function BuildRestoreSteps(rows: seq<Row>, known: seq<string>): seq<RestoreStep> {
    if known == [] then []
    else
      var rest := BuildRestoreSteps(rows, known[1..]);
      match Effective(rows, known[0])
      case None => rest
      case Some(row) => [RestoreStep(row.target, Output(known[0]), row.path, Unsupported)] + rest
  }

  datatype ThemeEntry = ThemeEntry(output: string, wallpaper: string, backend: string)

  function ThemeEntries(rows: seq<Row>, known: seq<string>): seq<ThemeEntry> {
    if known == [] then []
    else
      var rest := ThemeEntries(rows, known[1..]);
      match Effective(rows, known[0])
      case None => rest
      case Some(row) => [ThemeEntry(known[0], row.path, row.backend)] + rest
  }

  ghost predicate Tabulates(seen: seq<Row>, template: Option<Row>, known: seq<string>,
        table: map<string, (string, string)>) {
    forall o :: o in known ==>
      Get(table, o) == match Chosen(seen, template,
            o) { case Some(row) => Some((row.path, row.backend)) case None => None }
  }

  lemma TabulateNext(rows: seq<Row>, i: nat, template: Option<Row>, known: seq<string>,
        table: map<string, (string, string)>)
    requires UniqueTargets(rows) && i < |rows| && Tabulates(rows[..i], template, known, table)
    ensures Tabulates(rows[..i + 1], template, known,
                      if rows[i].target.OutputRow? && rows[i].target.name in known then
                        table[rows[i].target.name := (rows[i].path, rows[i].backend)]
                      else
                        table)
  {
    forall o ensures Chosen(rows[..i + 1], template, o)
                  == if rows[i].target == OutputRow(o) then Some(rows[i]) else Chosen(rows[..i], template, o)
    {
      ChosenNext(rows, i, template, o);
    }
  }

  method TabulateTemplate(known: seq<string>, template: Option<Row>) returns (table: map<string, (string, string)>)
    ensures Tabulates([], template, known, table)
  {
    table := map[];
    if template.Some? {
      for i := 0 to |known|
        invariant forall o :: o in table <==> o in known[..i]
        invariant forall o :: o in table ==> table[o] == (template.value.path, template.value.backend)
      {
        table := table[known[i] := (template.value.path, template.value.backend)];
      }
    }
  }

  /** Reads the table off in the order of the outputs. */
  method CollectEntries(ghost rows: seq<Row>, known: seq<string>, table: map<string, (string, string)>)
      returns (entries: seq<ThemeEntry>)
    requires Tabulates(rows, Find(rows, AllRow), known, table)
    ensures entries == ThemeEntries(rows, known)
  {
    entries := [];
    for i := 0 to |known|
      invariant entries + ThemeEntries(rows, known[i..]) == ThemeEntries(rows, known)
    {
      ghost var rest := ThemeEntries(rows, known[i + 1..]);
      assert known[i..][0] == known[i] && known[i..][1..] == known[i + 1..];
      assert Chosen(rows, Find(rows, AllRow), known[i]) == Effective(rows, known[i]);
      if known[i] in table {
        var entry := ThemeEntry(known[i], table[known[i]].0, table[known[i]].1);
        assert entries + ([entry] + rest) == entries + [entry] + rest;
        entries := entries + [entry];
      }
    }
    assert entries + [] == entries;
  }

  /** Lookup 4: theme entries, built through a table that later rows overwrite. */
  method PerOutputThemeEntries(rows: seq<Row>, known: seq<string>) returns (entries: seq<ThemeEntry>)
    requires UniqueTargets(rows)
    ensures entries == ThemeEntries(rows, known)
  {
    var template := Find(rows, AllRow);
    var table := TabulateTemplate(known, template);
    assert rows[..0] == [];
    for i := 0 to |rows|
      invariant Tabulates(rows[..i], template, known, table)
    {
      TabulateNext(rows, i, template, known, table);
      if rows[i].target.OutputRow? && rows[i].target.name in known {
        table := table[rows[i].target.name := (rows[i].path, rows[i].backend)];
      }
    }
    assert rows[..|rows|] == rows;
    entries := CollectEntries(rows, known, table);
  }

  // ---------------------------------------------------------------- agreement

  lemma {:induction false} RestoreStepsAreEffective(rows: seq<Row>, known: seq<string>)
    ensures forall s :: s in BuildRestoreSteps(rows, known) <==>
              exists o :: o in known && Effective(rows, o).Some?
                && s == RestoreStep(Effective(rows, o).value.target, Output(o), Effective(rows, o).value.path,
                     Unsupported)
  {
    if known != [] {
      RestoreStepsAreEffective(rows, known[1..]);
      assert forall o :: o in known <==> o == known[0] || o in known[1..];
    }
  }

  lemma {:induction false} ThemeEntriesAreEffective(rows: seq<Row>, known: seq<string>)
    ensures forall e :: e in ThemeEntries(rows, known) <==>
              exists o :: o in known && Effective(rows, o).Some?
                && e == ThemeEntry(o, Effective(rows, o).value.path, Effective(rows, o).value.backend)
  {
    if known != [] {
      ThemeEntriesAreEffective(rows, known[1..]);
      assert forall o :: o in known <==> o == known[0] || o in known[1..];
    }
  }

  /** The four implementations give every connected output the same saved row. */
  method CompareLookups(rows: seq<Row>, known: seq<string>)
    returns (running: Result<seq<RunningAssignment>, ParseError>, saved: map<string, Assignment>,
          steps: seq<RestoreStep>, entries: seq<ThemeEntry>)
    requires UniqueTargets(rows) && Distinct(known)
    ensures saved.Keys == set o | o in known && Effective(rows, o).Some?
    ensures forall s :: s in steps <==> (
                && s.target.Output? && s.target.name in saved && s.path == saved[s.target.name].path
                && s.assignmentTarget == Effective(rows, s.target.name).value.target && s.backend == Unsupported)
    ensures forall e :: e in entries <==> (
                && e.output in saved && e.wallpaper == saved[e.output].path && e.backend == saved[e.output].backend)
    ensures running.Success? ==>
              && UniqueOutputs(running.value)
              && (forall o :: o in saved ==> Lookup(running.value, o) == ParseStateBackend(saved[o].backend))
              && (forall o :: o !in saved ==> Lookup(running.value, o) == None)
    ensures running.Failure? ==>
              exists row :: row in rows && (row.target.AllRow? || row.target.name in known)
                            && ParseStateBackend(row.backend).None?
  {
    running := RunningFromDisplayState(rows, known);
    saved := Assignments(rows, known);
    steps := BuildRestoreSteps(rows, known);
    RestoreStepsAreEffective(rows, known);
    entries := PerOutputThemeEntries(rows, known);
    ThemeEntriesAreEffective(rows, known);
  }
}
