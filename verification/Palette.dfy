/** Activating a theme palette: stage every file, then replace them one by one, rolling back on an error. */
module Palette {
  import opened Prelude

  type Bytes = seq<int>

  /** One selected file of a palette: the path its consumer knows, and the file that path resolves to. */
  datatype Entry = Entry(consumer: string, file: string, content: Bytes)

  datatype File = File(content: Bytes, mode: nat)

  type Files = map<string, File>

  /** The permissions of a file that was not there before, and those of a temporary one: 0644 and 0600. */
  const NEW_MODE: nat := 420

  const PRIVATE_MODE: nat := 384

  function ContentOf(files: Files, f: string): Option<Bytes> {
    if f in files then Some(files[f].content) else None
  }

  /** A file that is written again keeps its permissions. */
  function ModeFor(files: Files, f: string): nat {
    if f in files then files[f].mode else NEW_MODE
  }

  /** Entries whose file does not already hold their content. */
  function Pending(files: Files, entries: seq<Entry>): (r: seq<Entry>)
    ensures forall e :: e in r <==> e in entries && ContentOf(files, e.file) != Some(e.content)
  {
    if entries == [] then []
    else
      var e := entries[|entries| - 1];
      Pending(files, entries[..|entries| - 1]) + if ContentOf(files, e.file) == Some(e.content) then [] else [e]
  }

  /** What an entry's file is to become. */
  function Payload(files: Files, e: Entry): File {
    File(e.content, ModeFor(files, e.file))
  }

  function Replaced(files: Files, entries: seq<Entry>): Files {
    if entries == [] then files
    else
      var e := entries[|entries| - 1];
      Replaced(files, entries[..|entries| - 1])[e.file := Payload(files, e)]
  }

  function Consumers(entries: seq<Entry>): (r: seq<string>)
    ensures |r| == |entries| && forall i :: 0 <= i < |r| ==> r[i] == entries[i].consumer
  {
    seq(|entries|, i requires 0 <= i < |entries| => entries[i].consumer)
  }

  /** No file is anything but as before, or a whole payload meant for it under its old permissions. */
  ghost predicate Untorn(before: Files, entries: seq<Entry>, after: Files) {
    forall f ::
      || Get(after, f) == Get(before, f)
      || exists e :: e in entries && e.file == f && Get(after, f) == Some(Payload(before, e))
  }

  /**
   * Resolved destinations and temporary files; every operation may raise an error. Temporary names
   * are fresh, so they are kept apart from destinations.
   */
  class FileSystem {
    var files: Files
    var temporaries: map<nat, File>

    /** How many errors have been raised. */
    ghost var faults: nat

    method Read(f: string) returns (r: Result<Option<Bytes>, ()>)
      modifies this`faults
      ensures r.Success? ==> r.value == ContentOf(files, f)
      ensures faults == old(faults) + if r.Success? then 0 else 1
    {
      var readable: bool := *;
      faults := faults + if readable then 0 else 1;
      return if readable then Success(ContentOf(files, f)) else Failure(());
    }

    method MakeTemporary() returns (t: Option<nat>)
      modifies this`temporaries, this`faults
      ensures t.Some? ==>
                t.value !in old(temporaries) && temporaries == old(temporaries)[t.value := File([], PRIVATE_MODE)]
      ensures t.None? ==> temporaries == old(temporaries)
      ensures faults == old(faults) + if t.Some? then 0 else 1
    {
      var made: bool := *;
      if !made {
        faults := faults + 1;
        return None;
      }
      var unused := FreshName(temporaries.Keys);
      temporaries := temporaries[unused := File([], PRIVATE_MODE)];
      return Some(unused);
    }

    /** A failed write leaves some of the data. */
    method WriteTemporary(t: nat, data: Bytes) returns (ok: bool)
      requires t in temporaries
      modifies this`temporaries, this`faults
      ensures temporaries.Keys == old(temporaries).Keys
      ensures forall u :: u in temporaries && u != t ==> temporaries[u] == old(temporaries)[u]
      ensures temporaries[t].mode == old(temporaries)[t].mode && (ok ==> temporaries[t].content == data)
      ensures faults == old(faults) + if ok then 0 else 1
    {
      var written: int := *;
      ok := !(0 <= written < |data|);
      temporaries := temporaries[t := temporaries[t].(content := if ok then data else data[..written])];
      faults := faults + if ok then 0 else 1;
    }

    method Chmod(t: nat, mode: nat) returns (ok: bool)
      requires t in temporaries
      modifies this`temporaries, this`faults
      ensures temporaries == if ok then old(temporaries)[t := old(temporaries)[t].(mode := mode)] else old(temporaries)
      ensures faults == old(faults) + if ok then 0 else 1
    {
      ok := *;
      if ok {
        temporaries := temporaries[t := temporaries[t].(mode := mode)];
      } else {
        faults := faults + 1;
      }
    }

    method Replace(t: nat, f: string) returns (ok: bool)
      requires t in temporaries
      modifies this
      ensures ok ==> files == old(files)[f := old(temporaries)[t]] && temporaries == old(temporaries) - {t}
      ensures !ok ==> files == old(files) && temporaries == old(temporaries)
      ensures faults == old(faults) + if ok then 0 else 1
    {
      ok := *;
      if ok {
        files, temporaries := files[f := temporaries[t]], temporaries - {t};
      } else {
        faults := faults + 1;
      }
    }

    /** Removing a file that is not there is no error. */
    method UnlinkTemporary(t: nat) returns (ok: bool)
      modifies this`temporaries, this`faults
      ensures temporaries == old(temporaries) - if ok then {t} else {}
      ensures faults == old(faults) + if ok then 0 else 1
    {
      ok := *;
      temporaries := temporaries - if ok then {t} else {};
      faults := faults + if ok then 0 else 1;
    }

    method Unlink(f: string) returns (ok: bool)
      modifies this`files, this`faults
      ensures files == old(files) - if ok then {f} else {}
      ensures faults == old(faults) + if ok then 0 else 1
    {
      ok := *;
      files := files - if ok then {f} else {};
      faults := faults + if ok then 0 else 1;
    }

    /** Writes a file through a temporary of its own. */
    method AtomicBytes(f: string, data: Bytes) returns (ok: bool)
      modifies this
      ensures ok ==>
                files == old(files)[f := File(data, ModeFor(old(files), f))] && temporaries == old(temporaries)
      ensures !ok ==> files == old(files)
      ensures forall t :: t in old(temporaries) ==> t in temporaries && temporaries[t] == old(temporaries)[t]
      ensures faults >= old(faults) + if ok then 0 else 1
    {
      var made := MakeTemporary();
      if made.None? {
        return false;
      }
      ok := WriteTemporary(made.value, data);
      if ok {
        ok := Chmod(made.value, ModeFor(files, f));
      }
      if ok {
        ok := Replace(made.value, f);
      }
      if made.value in temporaries {
        var gone := UnlinkTemporary(made.value);
      }
    }
  }

  method FreshName(used: set<nat>) returns (t: nat)
    ensures t !in used
  {
    t := 0;
    var rest := used;
    while rest != {}
      invariant rest <= used
      invariant forall u :: u in used && u !in rest ==> u < t
      decreases |rest|
    {
      var u :| u in rest;
      rest := rest - {u};
      if u >= t {
        t := u + 1;
      }
    }
  }

  datatype Staged = Staged(file: string, temporary: nat, original: Option<Bytes>, consumer: string)

  datatype Outcome =
    | Activated(changed: seq<string>)
    | StagingFailed
    | ReplaceFailed(rolledBack: bool)

  /** What the staged list says about the entries still to be written. */
  ghost predicate Describes(staged: seq<Staged>, entries: seq<Entry>, files: Files) {
    && |staged| == |entries|
    && (forall i, j :: 0 <= i < j < |staged| ==> staged[i].temporary != staged[j].temporary)
    && forall i :: 0 <= i < |staged| ==>
         && staged[i].file == entries[i].file && staged[i].consumer == entries[i].consumer
         && staged[i].original == ContentOf(files, entries[i].file)
  }

  /** Nothing but staged temporaries has been added, and nothing was lost. */
  ghost predicate OnlyExtra(now: map<nat, File>, before: map<nat, File>, staged: seq<Staged>) {
    && (forall k :: 0 <= k < |staged| ==> staged[k].temporary !in before)
    && (forall t :: t in before ==> Get(now, t) == Some(before[t]))
    && forall t :: t in now && t !in before ==> exists k :: 0 <= k < |staged| && staged[k].temporary == t
  }

  /** Temporaries from position `i` on hold what is to be written. */
  ghost predicate StagedIn(now: map<nat, File>, staged: seq<Staged>, entries: seq<Entry>, files: Files, i: int) {
    |staged| == |entries| && forall k :: 0 <= i <= k < |staged| ==>
          Get(now, staged[k].temporary) == Some(Payload(files, entries[k]))
  }

  lemma OneMoreExtra(now: map<nat, File>, next: map<nat, File>, before: map<nat, File>, staged: seq<Staged>,
        s: Staged)
    requires OnlyExtra(now, before, staged) && s.temporary !in now && s.temporary in next
    requires next == now[s.temporary := next[s.temporary]]
    ensures OnlyExtra(next, before, staged + [s])
  {
    assert (staged + [s])[|staged|] == s;
    forall t | t in next && t !in before
      ensures exists k :: 0 <= k < |staged + [s]| && (staged + [s])[k].temporary == t
    {
      if t in now {
        var k :| 0 <= k < |staged| && staged[k].temporary == t;
        assert (staged + [s])[k].temporary == t;
      }
    }
  }

  lemma OneMoreStaged(now: map<nat, File>, next: map<nat, File>, staged: seq<Staged>, pending: seq<Entry>,
        files: Files, s: Staged, e: Entry)
    requires Describes(staged, pending, files) && StagedIn(now, staged, pending, files, 0)
    requires s == Staged(e.file, s.temporary, ContentOf(files, e.file), e.consumer) && s.temporary !in now
    requires next == now[s.temporary := Payload(files, e)]
    ensures Describes(staged + [s], pending + [e], files) && StagedIn(next, staged + [s], pending + [e], files, 0)
  {
    forall k | 0 <= k < |staged| ensures staged[k].temporary != s.temporary {
      assert Get(now, staged[k].temporary).Some?;
    }
  }

  /** What staging one entry has done. */
  ghost predicate EntryStaged(files: Files, before: map<nat, File>, now: map<nat, File>, e: Entry, ok: bool,
        made: Option<Staged>) {
    match made
    case None => now == before && (ok ==> ContentOf(files, e.file) == Some(e.content))
    case Some(s) =>
      && s == Staged(e.file, s.temporary, ContentOf(files, e.file), e.consumer)
      && ContentOf(files, e.file) != Some(e.content) && s.temporary !in before && s.temporary in now
      && now == before[s.temporary := now[s.temporary]] && (ok ==> now[s.temporary] == Payload(files, e))
  }

  /** The first entries are staged, as far as they differ. */
  ghost predicate StagedTo(files: Files, before: map<nat, File>, now: map<nat, File>, staged: seq<Staged>,
        entries: seq<Entry>) {
    && Describes(staged, Pending(files, entries), files)
    && StagedIn(now, staged, Pending(files, entries), files, 0) && OnlyExtra(now, before, staged)
  }

  lemma StagedNext(files: Files, before: map<nat, File>, now: map<nat, File>, next: map<nat, File>,
        staged: seq<Staged>, entries: seq<Entry>, i: nat, ok: bool, made: Option<Staged>)
    requires i < |entries| && StagedTo(files, before, now, staged, entries[..i])
    requires EntryStaged(files, now, next, entries[i], ok, made)
    ensures OnlyExtra(next, before, if made.Some? then staged + [made.value] else staged)
    ensures ok ==>
              StagedTo(files, before, next, if made.Some? then staged + [made.value] else staged, entries[..i + 1])
  {
    var pending := Pending(files, entries[..i]);
    PendingNext(files, entries, i);
    if made.Some? {
      OneMoreExtra(now, next, before, staged, made.value);
      if ok {
        OneMoreStaged(now, next, staged, pending, files, made.value, entries[i]);
      }
    } else {
      assert pending + [] == pending;
    }
  }

  /** Stages one entry; `None` with `ok` means its file already holds the content. */
  method StageEntry(fs: FileSystem, e: Entry) returns (ok: bool, made: Option<Staged>)
    modifies fs`temporaries, fs`faults
    ensures fs.faults == old(fs.faults) + if ok then 0 else 1
    ensures EntryStaged(fs.files, old(fs.temporaries), fs.temporaries, e, ok, made)
  {
    made := None;
    var read := fs.Read(e.file);
    if read.Failure? {
      return false, None;
    }
    if read.value == Some(e.content) {
      return true, None;
    }
    var temporary := fs.MakeTemporary();
    if temporary.None? {
      return false, None;
    }
    made := Some(Staged(e.file, temporary.value, read.value, e.consumer));
    ok := fs.WriteTemporary(temporary.value, e.content);
    if ok {
      ok := fs.Chmod(temporary.value, ModeFor(fs.files, e.file));
    }
  }

  lemma PendingNext(files: Files, entries: seq<Entry>, i: nat)
    requires i < |entries|
    ensures Pending(files, entries[..i + 1])
         == Pending(files, entries[..i])
            + if ContentOf(files, entries[i].file) == Some(entries[i].content) then [] else [entries[i]]
  {
    assert entries[..i + 1][..i] == entries[..i];
  }

  /** Validates and stages every entry; no destination is touched. */
  method Stage(fs: FileSystem, entries: seq<Entry>) returns (ok: bool, staged: seq<Staged>)
    modifies fs`temporaries, fs`faults
    ensures fs.faults == old(fs.faults) + if ok then 0 else 1
    ensures ok ==> Describes(staged, Pending(fs.files, entries), fs.files)
    ensures ok ==> StagedIn(fs.temporaries, staged, Pending(fs.files, entries), fs.files, 0)
    ensures OnlyExtra(fs.temporaries, old(fs.temporaries), staged)
  {
    staged := [];
    ghost var files, before := fs.files, fs.temporaries;
    for i := 0 to |entries|
      invariant StagedTo(files, before, fs.temporaries, staged, entries[..i])
      invariant fs.faults == old(fs.faults)
      modifies fs`temporaries, fs`faults
    {
      ghost var now := fs.temporaries;
      var made;
      ok, made := StageEntry(fs, entries[i]);
      StagedNext(files, before, now, fs.temporaries, staged, entries, i, ok, made);
      if made.Some? {
        staged := staged + [made.value];
      }
      if !ok {
        return;
      }
    }
    assert entries[..|entries|] == entries;
    ok := true;
  }

  lemma OneLessReady(now: map<nat, File>, before: map<nat, File>, staged: seq<Staged>, entries: seq<Entry>,
        files: Files, i: nat)
    requires i < |staged| && Describes(staged, entries, files) && StagedIn(now, staged, entries, files, i)
             && OnlyExtra(now, before, staged)
    ensures Get(now, staged[i].temporary) == Some(Payload(files, entries[i]))
    ensures (staged[i].file, staged[i].original) == (entries[i].file, ContentOf(files, entries[i].file))
    ensures StagedIn(now - {staged[i].temporary}, staged, entries, files, i + 1)
    ensures OnlyExtra(now - {staged[i].temporary}, before, staged)
  {
    var next := now - {staged[i].temporary};
    forall k | i < k < |staged| ensures Get(next, staged[k].temporary) == Some(Payload(files, entries[k])) {
      assert Get(now, staged[k].temporary) == Some(Payload(files, entries[k]));
      assert staged[i].temporary != staged[k].temporary;
    }
    assert forall t :: t in before ==> Get(now, t) == Some(before[t]);
  }

  function Originals(files: Files, entries: seq<Entry>): (r: seq<(string, Option<Bytes>)>)
    ensures |r| == |entries|
    ensures forall k :: 0 <= k < |r| ==> r[k] == (entries[k].file, ContentOf(files, entries[k].file))
  {
    seq(|entries|, k requires 0 <= k < |entries| => (entries[k].file, ContentOf(files, entries[k].file)))
  }

  lemma OneMoreReplaced(files: Files, entries: seq<Entry>, i: nat)
    requires i < |entries|
    ensures Replaced(files, entries[..i + 1])
            == Replaced(files, entries[..i])[entries[i].file := Payload(files, entries[i])]
    ensures Originals(files, entries[..i + 1])
            == Originals(files, entries[..i]) + [(entries[i].file, ContentOf(files, entries[i].file))]
  {
    assert entries[..i + 1][..i] == entries[..i];
  }

  /** Replaces the destinations in order; stops at the first error. */
  method Commit(fs: FileSystem, staged: seq<Staged>, ghost entries: seq<Entry>, ghost before: map<nat, File>)
      returns (ok: bool, committed: seq<(string, Option<Bytes>)>)
    requires Describes(staged, entries, fs.files) && StagedIn(fs.temporaries, staged, entries, fs.files, 0)
    requires OnlyExtra(fs.temporaries, before, staged)
    modifies fs
    ensures |committed| <= |staged| && (ok <==> |committed| == |staged|)
    ensures fs.faults == old(fs.faults) + if ok then 0 else 1
    ensures committed == Originals(old(fs.files), entries[..|committed|])
    ensures fs.files == Replaced(old(fs.files), entries[..|committed|])
    ensures OnlyExtra(fs.temporaries, before, staged)
  {
    ghost var files := fs.files;
    committed := [];
    for i := 0 to |staged|
      invariant |committed| == i && fs.faults == old(fs.faults)
      invariant committed == Originals(files, entries[..i])
      invariant fs.files == Replaced(files, entries[..i])
      invariant StagedIn(fs.temporaries, staged, entries, files, i)
      invariant OnlyExtra(fs.temporaries, before, staged)
    {
      OneLessReady(fs.temporaries, before, staged, entries, files, i);
      OneMoreReplaced(files, entries, i);
      ok := fs.Replace(staged[i].temporary, staged[i].file);
      if !ok {
        return;
      }
      committed := committed + [(staged[i].file, staged[i].original)];
    }
    ok := true;
  }

  /** Every file is as at one of two moments, and those committed from `i` on are as originally. */
  ghost predicate PartlyRestored(original: Files, reached: Files, now: Files, committed: seq<(string, Option<Bytes>)>,
        i: int) {
    && (forall f :: Get(now, f) == Get(original, f) || Get(now, f) == Get(reached, f))
    && forall k :: 0 <= i <= k < |committed| ==> Get(now, committed[k].0) == Get(original, committed[k].0)
  }

  /** Puts the originals back, last first; an error ends it. */
  method RollBack(fs: FileSystem, committed: seq<(string, Option<Bytes>)>, ghost original: Files) returns (ok: bool)
    requires forall k :: 0 <= k < |committed| ==> committed[k].1 == ContentOf(original, committed[k].0)
    requires forall f :: f in original ==> f in fs.files && fs.files[f].mode == original[f].mode
    modifies fs
    ensures PartlyRestored(original, old(fs.files), fs.files, committed, if ok then 0 else |committed|)
    ensures ok ==> fs.temporaries == old(fs.temporaries)
    ensures fs.faults >= old(fs.faults) + if ok then 0 else 1
  {
    var i := |committed|;
    while i > 0
      invariant 0 <= i <= |committed|
      invariant PartlyRestored(original, old(fs.files), fs.files, committed, i)
      invariant fs.temporaries == old(fs.temporaries) && fs.faults >= old(fs.faults)
    {
      i := i - 1;
      var (file, content) := committed[i];
      if content.None? {
        ok := fs.Unlink(file);
      } else {
        ok := fs.AtomicBytes(file, content.value);
      }
      if !ok {
        return;
      }
    }
    ok := true;
  }

  lemma RolledBack(original: Files, entries: seq<Entry>, now: Files, committed: seq<(string, Option<Bytes>)>)
    requires |committed| <= |entries|
    requires forall k :: 0 <= k < |committed| ==> committed[k].0 == entries[k].file
    requires PartlyRestored(original, Replaced(original, entries[..|committed|]), now, committed, 0)
    ensures now == original
  {
    var n := |committed|;
    forall f ensures Get(now, f) == Get(original, f) {
      if k :| 0 <= k < n && entries[k].file == f {
        assert committed[k].0 == f;
      } else {
        ReplacedElsewhere(original, entries[..n], f);
      }
    }
    SameFiles(now, original);
  }

  function Temporaries(staged: seq<Staged>): set<nat> {
    set k | 0 <= k < |staged| :: staged[k].temporary
  }

  /** Removes staged temporaries until an error. */
  method CleanUp(fs: FileSystem, staged: seq<Staged>) returns (ok: bool)
    modifies fs`temporaries, fs`faults
    ensures fs.faults == old(fs.faults) + if ok then 0 else 1
    ensures ok ==> fs.temporaries == old(fs.temporaries) - Temporaries(staged)
  {
    for i := 0 to |staged|
      invariant fs.temporaries == old(fs.temporaries) - Temporaries(staged[..i])
      invariant fs.faults == old(fs.faults)
      modifies fs`temporaries, fs`faults
    {
      assert staged[..i + 1] == staged[..i] + [staged[i]];
      assert Temporaries(staged[..i + 1]) == Temporaries(staged[..i]) + {staged[i].temporary};
      ok := fs.UnlinkTemporary(staged[i].temporary);
      if !ok {
        return;
      }
    }
    assert staged[..|staged|] == staged;
    ok := true;
  }

  lemma OnlyExtraIsStaged(now: map<nat, File>, before: map<nat, File>, staged: seq<Staged>)
    requires OnlyExtra(now, before, staged)
    ensures now - Temporaries(staged) == before
  {
    assert forall t :: t in before ==> Get(now, t).Some?;
  }

  /** Replaces every staged destination, or puts the originals back. */
  method ReplaceAll(fs: FileSystem, staged: seq<Staged>, ghost pending: seq<Entry>, ghost before: map<nat, File>)
      returns (outcome: Outcome)
    requires Describes(staged, pending, fs.files) && StagedIn(fs.temporaries, staged, pending, fs.files, 0)
    requires OnlyExtra(fs.temporaries, before, staged)
    modifies fs
    ensures !outcome.StagingFailed?
    ensures fs.faults >= old(fs.faults) + if outcome.Activated? then 0 else if outcome.rolledBack then 1 else 2
    ensures outcome.Activated? ==> fs.faults == old(fs.faults)
    ensures outcome == ReplaceFailed(true) ==> fs.files == old(fs.files)
    ensures outcome.ReplaceFailed? ==> Untorn(old(fs.files), pending, fs.files)
    ensures outcome.Activated? ==> fs.files == Replaced(old(fs.files), pending) && outcome.changed == Consumers(pending)
    ensures outcome != ReplaceFailed(false) ==> fs.temporaries - Temporaries(staged) == before
  {
    ghost var files := fs.files;
    var ok, committed := Commit(fs, staged, pending, before);
    OnlyExtraIsStaged(fs.temporaries, before, staged);
    if ok {
      assert pending[..|pending|] == pending;
      return Activated(seq(|staged|, i requires 0 <= i < |staged| => staged[i].consumer));
    }
    ReplacedIsUntorn(files, pending, |committed|);
    ReplacedKeepsModes(files, pending[..|committed|]);
    var rolledBack := RollBack(fs, committed, files);
    if rolledBack {
      RolledBack(files, pending, fs.files, committed);
    }
    return ReplaceFailed(rolledBack);
  }

  /** No file vanishes or changes its permissions, and new ones get the usual ones. */
  ghost predicate KeepsModes(before: Files, after: Files) {
    && (forall f :: f in before ==> f in after)
    && forall f :: f in after ==> after[f].mode == if f in before then before[f].mode else 0x1a4
  }

  lemma UntornKeepsModes(before: Files, entries: seq<Entry>, after: Files)
    requires Untorn(before, entries, after)
    ensures KeepsModes(before, after)
  {
    forall f ensures f in before ==> Get(after, f).Some?
      ensures f in after ==> after[f].mode == if f in before then before[f].mode else 0x1a4
    {
      assert Get(after, f) == Get(before, f) || exists e :: e in entries && Get(after, f) == Some(Payload(before, e));
    }
  }

  lemma {:induction false} ReplacedKeepsModes(files: Files, entries: seq<Entry>)
    ensures KeepsModes(files, Replaced(files, entries))
    decreases |entries|
  {
    if entries != [] {
      ReplacedKeepsModes(files, entries[..|entries| - 1]);
    }
  }

  lemma PendingIsUntorn(files: Files, entries: seq<Entry>, now: Files)
    requires Untorn(files, Pending(files, entries), now)
    ensures Untorn(files, entries, now)
  {
  }

  /**
   * Activation is all or nothing: an error while staging changes no destination; an error at any
   * replacement leaves every destination as it was once the rollback writes succeed; and no
   * destination is ever left with half a payload. `tidy` says the temporaries could be removed. Without
   * an error the palette is activated and nothing is left behind; a single error never leaves part of it.
   */
  method Activate(fs: FileSystem, entries: seq<Entry>) returns (outcome: Outcome, tidy: bool)
    modifies fs
    ensures outcome.StagingFailed? ==> fs.files == old(fs.files)
    ensures outcome == ReplaceFailed(true) ==> fs.files == old(fs.files)
    ensures outcome.ReplaceFailed? ==> Untorn(old(fs.files), entries, fs.files)
    ensures KeepsModes(old(fs.files), fs.files)
    ensures outcome.Activated? ==>
              && fs.files == Replaced(old(fs.files), Pending(old(fs.files), entries))
              && outcome.changed == Consumers(Pending(old(fs.files), entries))
              && LastPayloadsHeld(Pending(old(fs.files), entries), fs.files)
    ensures tidy && outcome != ReplaceFailed(false) ==> fs.temporaries == old(fs.temporaries)
    ensures fs.faults == old(fs.faults) <==> outcome.Activated? && tidy
    ensures outcome == ReplaceFailed(false) ==> fs.faults >= old(fs.faults) + 2
  {
    ghost var files, temporaries, pending := fs.files, fs.temporaries, Pending(fs.files, entries);
    var ok, staged := Stage(fs, entries);
    if !ok {
      OnlyExtraIsStaged(fs.temporaries, temporaries, staged);
      tidy := CleanUp(fs, staged);
      return StagingFailed, tidy;
    }
    outcome := ReplaceAll(fs, staged, pending, temporaries);
    if outcome.ReplaceFailed? {
      PendingIsUntorn(files, entries, fs.files);
      UntornKeepsModes(files, entries, fs.files);
    } else {
      LastPayloadsWin(files, pending);
      ReplacedKeepsModes(files, pending);
    }
    tidy := CleanUp(fs, staged);
  }

  lemma SameFiles(a: Files, b: Files)
    requires forall f :: Get(a, f) == Get(b, f)
    ensures a == b
  {
    forall f ensures f in a <==> f in b {
      assert Get(a, f) == Get(b, f);
    }
    forall f | f in a ensures a[f] == b[f] {
      assert Get(a, f) == Get(b, f);
    }
  }

  lemma {:induction false} ReplacedElsewhere(files: Files, entries: seq<Entry>, f: string)
    requires forall k :: 0 <= k < |entries| ==> entries[k].file != f
    ensures Get(Replaced(files, entries), f) == Get(files, f)
    decreases |entries|
  {
    if entries != [] {
      ReplacedElsewhere(files, entries[..|entries| - 1], f);
    }
  }

  lemma {:induction false} ReplacedIsUntorn(files: Files, entries: seq<Entry>, n: nat)
    requires n <= |entries|
    ensures Untorn(files, entries, Replaced(files, entries[..n]))
  {
    if n == 0 {
      assert entries[..0] == [];
    } else {
      ReplacedIsUntorn(files, entries, n - 1);
      assert entries[..n][..n - 1] == entries[..n - 1];
      assert entries[n - 1] in entries;
    }
  }

  /** Every file holds the last payload meant for it. */
  ghost predicate LastPayloadsHeld(entries: seq<Entry>, files: Files) {
    forall k :: 0 <= k < |entries| && (forall j :: k < j < |entries| ==> entries[j].file != entries[k].file) ==>
          ContentOf(files, entries[k].file) == Some(entries[k].content)
  }

  lemma LastPayloadsWin(files: Files, entries: seq<Entry>)
    ensures LastPayloadsHeld(entries, Replaced(files, entries))
  {
    forall k | 0 <= k < |entries| && forall j :: k < j < |entries| ==> entries[j].file != entries[k].file
      ensures ContentOf(Replaced(files, entries), entries[k].file) == Some(entries[k].content)
    {
      LastPayloadWins(files, entries, k);
    }
  }

  lemma {:induction false} LastPayloadWins(files: Files, entries: seq<Entry>, k: nat)
    requires k < |entries| && forall j :: k < j < |entries| ==> entries[j].file != entries[k].file
    ensures ContentOf(Replaced(files, entries), entries[k].file) == Some(entries[k].content)
    decreases |entries|
  {
    if k < |entries| - 1 {
      LastPayloadWins(files, entries[..|entries| - 1], k);
    }
  }

  /** A file some entry is written to ends with the payload of one of its entries. */
  lemma {:induction false} SomePayload(files: Files, entries: seq<Entry>, e: Entry) returns (w: Entry)
    requires e in entries
    ensures w in entries && w.file == e.file && ContentOf(Replaced(files, entries), e.file) == Some(w.content)
    decreases |entries|
  {
    var n := |entries| - 1;
    if entries[n].file == e.file {
      w := entries[n];
    } else {
      w := SomePayload(files, entries[..n], e);
    }
  }

  ghost predicate Agree(entries: seq<Entry>) {
    forall a, b :: a in entries && b in entries && a.file == b.file ==> a.content == b.content
  }

  /**
   * After a successful activation every selected destination holds its payload, exactly when entries
   * that resolve to one file agree on its content; in particular when the files are distinct.
   */
  lemma EveryPayloadArrives(files: Files, entries: seq<Entry>)
    ensures var after := Replaced(files, Pending(files, entries));
            (forall e :: e in entries ==> ContentOf(after, e.file) == Some(e.content)) <==> Agree(entries)
  {
    var pending := Pending(files, entries);
    var after := Replaced(files, pending);
    if Agree(entries) {
      forall e | e in entries ensures ContentOf(after, e.file) == Some(e.content) {
        if e in pending {
          var w := SomePayload(files, pending, e);
          assert w in entries;
        } else {
          assert forall w :: w in pending ==> w in entries && w.file != e.file;
          ReplacedElsewhere(files, pending, e.file);
        }
      }
    }
  }
}
