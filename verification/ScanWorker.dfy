/**
 * The record stream between an isolated scan worker and its supervisor: what the worker emits, how
 * the supervisor cuts the byte stream into records, and which runs it accepts.
 */
module ScanWorker {
  import opened Prelude

  type byte = b: int | 0 <= b < 256

  const NEWLINE: byte := 10
  const PROTOCOL_VERSION: nat := 1
  const LINE_CAP: nat := 8 * 1024
  const OUTPUT_CAP: nat := 32 * 1024
  const MAX_EPOCH: nat := 0xFFFF_FFFF_FFFF_FFFF

  datatype Stats = Stats(visited: nat, candidates: nat, indexed: nat, reused: nat)

  const NO_STATS := Stats(0, 0, 0, 0)

  datatype Terminal = Complete | Offline | Incomplete | Cancelled

  datatype Record = Record(version: nat, epoch: nat, completed: bool, stats: Stats, terminal: Option<Terminal>)

  /** Serialization of one record. */
  datatype Codec = Codec(encode: Record -> seq<byte>, decode: seq<byte> -> Option<Record>)
  {
    /** The record fits a line and survives the round trip. */
    ghost predicate Carries(r: Record) {
      && decode(encode(r)) == Some(r)
      && NEWLINE !in encode(r)
      && |encode(r)| <= 8192
    }
  }

  // ---------------------------------------------------------------- the worker

  datatype Event = SourceStarted | EntryVisited(stats: Stats) | CandidateFound(stats: Stats)

  datatype Outcome = Outcome(terminal: Terminal, stats: Stats)

  function Bumped(epoch: nat): nat {
    if epoch < MAX_EPOCH then epoch + 1 else MAX_EPOCH
  }

  function EventStats(e: Event): Stats {
    if e.SourceStarted? then NO_STATS else e.stats
  }

  function Progress(events: seq<Event>): (r: seq<Record>)
    ensures |r| == |events|
    ensures forall i :: 0 <= i < |r| ==>
              r[i] == Record(1, if i < MAX_EPOCH then i + 1 else MAX_EPOCH, false,
                    (match events[i]
                     case SourceStarted => Stats(0, 0, 0, 0)
                     case EntryVisited(s) => s
                     case CandidateFound(s) => s), None)
  {
    seq(|events|, i requires 0 <= i < |events| =>
      Record(PROTOCOL_VERSION, if i < MAX_EPOCH then i + 1 else MAX_EPOCH, false, EventStats(events[i]), None))
  }

  /** A scan that completes but whose snapshot cannot be stored ends without a final record. */
  predicate Finishes(outcome: Outcome, stored: bool) {
    outcome.terminal != Complete || stored
  }

  function Emitted(events: seq<Event>, outcome: Outcome, stored: bool): seq<Record> {
    Progress(events) +
    if Finishes(outcome, stored) then
      [Record(PROTOCOL_VERSION, if |events| < MAX_EPOCH then |events| + 1 else MAX_EPOCH, true,
              outcome.stats, Some(outcome.terminal))]
    else []
  }

  /** One line per record. */
  function Stream(codec: Codec, records: seq<Record>): seq<byte> {
    if records == [] then []
    else Stream(codec, records[..|records| - 1]) + codec.encode(records[|records| - 1]) + [NEWLINE]
  }

  /** Whether the pipe takes that many bytes before it breaks; `None` never breaks. */
  predicate Fits(room: Option<nat>, n: nat) {
    room.None? || n <= room.value
  }

  /** What gets through. */
  function Sent(room: Option<nat>, bytes: seq<byte>): (r: seq<byte>)
    ensures r <= bytes && (room.Some? ==> |r| <= room.value)
    ensures r == bytes || (room.Some? && |r| == room.value)
  {
    if Fits(room, |bytes|) then bytes else bytes[..room.value]
  }

  lemma {:induction false} StreamGrows(codec: Codec, records: seq<Record>, n: nat)
    requires n <= |records|
    ensures Stream(codec, records[..n]) <= Stream(codec, records)
    decreases |records|
  {
    if n < |records| {
      var before := records[..|records| - 1];
      assert before[..n] == records[..n];
      StreamGrows(codec, before, n);
    } else {
      assert records[..n] == records;
    }
  }

  /** Once the pipe breaks, what got through is what would have got through of the whole stream. */
  lemma BrokenForGood(codec: Codec, records: seq<Record>, n: nat, room: Option<nat>)
    requires n <= |records| && !Fits(room, |Stream(codec, records[..n])|)
    ensures Sent(room, Stream(codec, records[..n])) == Sent(room, Stream(codec, records))
    ensures !Fits(room, |Stream(codec, records)|)
  {
    StreamGrows(codec, records, n);
  }

  /**
   * The worker's standard output; `ok` is the worker's own verdict. A record that cannot be written
   * cancels the scan, and the final record cannot be written either.
   */
  method RunWorkerRequest(codec: Codec, room: Option<nat>, events: seq<Event>, outcome: Outcome, stored: bool)
      returns (output: seq<byte>, ok: bool)
    ensures output == Sent(room, Stream(codec, Emitted(events, outcome, stored)))
    ensures ok <==> Finishes(outcome, stored) && Fits(room, |Stream(codec, Emitted(events, outcome, stored))|)
  {
    var epoch := 0;
    output := [];
    ghost var all := Emitted(events, outcome, stored);
    for i := 0 to |events|
      invariant epoch == if i < MAX_EPOCH then i else MAX_EPOCH
      invariant output == Stream(codec, all[..i]) && Fits(room, |output|)
    {
      epoch := Bumped(epoch);
      output, ok := WriteRecord(codec, room, output,
            Record(PROTOCOL_VERSION, epoch, false, EventStats(events[i]), None), all, i);
      if !ok {
        return output, false;
      }
    }
    if outcome.terminal == Complete && !stored {
      assert all[..|events|] == all;
      return output, false;
    }
    epoch := Bumped(epoch);
    output, ok := WriteRecord(codec, room, output,
          Record(PROTOCOL_VERSION, epoch, true, outcome.stats, Some(outcome.terminal)), all, |events|);
    assert all[..|events| + 1] == all;
  }

  /** Writes the record at position `n` of the run, as far as the pipe takes it. */
  method WriteRecord(codec: Codec, room: Option<nat>, output: seq<byte>, record: Record, ghost all: seq<Record>,
        ghost n: nat)
      returns (r: seq<byte>, ok: bool)
    requires n < |all| && all[n] == record && output == Stream(codec, all[..n]) && Fits(room, |output|)
    ensures ok ==> r == Stream(codec, all[..n + 1]) && Fits(room, |r|)
    ensures !ok ==> r == Sent(room, Stream(codec, all)) && !Fits(room, |Stream(codec, all)|)
  {
    assert all[..n + 1][..n] == all[..n];
    var line := codec.encode(record) + [NEWLINE];
    assert Stream(codec, all[..n + 1]) == output + line;
    ok := Fits(room, |output| + |line|);
    r := Sent(room, output + line);
    if !ok {
      BrokenForGood(codec, all, n + 1, room);
    }
  }

  // ---------------------------------------------------------------- the drain

  datatype Drain = Drain(pending: seq<byte>, sent: seq<Option<Record>>)

  function Fed(codec: Codec, d: Drain, b: byte): Drain {
    if b == NEWLINE then Drain([], d.sent + [codec.decode(d.pending)])
    else if |d.pending| < LINE_CAP then d.(pending := d.pending + [b])
    else Drain([], d.sent + [None])
  }

  function FedAll(codec: Codec, bytes: seq<byte>): (d: Drain)
    ensures |d.pending| <= LINE_CAP
  {
    if bytes == [] then Drain([], []) else Fed(codec, FedAll(codec, bytes[..|bytes| - 1]), bytes[|bytes| - 1])
  }

  /** The records sent for a whole stream; an unterminated last line is parsed as well. */
  function Parsed(codec: Codec, bytes: seq<byte>): seq<Option<Record>> {
    var d := FedAll(codec, bytes);
    if d.pending == [] then d.sent else d.sent + [codec.decode(d.pending)]
  }

  /** What a reader sees: chunks up to the first empty one, which is the end of the stream. */
  function Received(chunks: seq<seq<byte>>): seq<byte> {
    if chunks == [] || chunks[0] == [] then [] else chunks[0] + Received(chunks[1..])
  }

  function Bounded(bytes: seq<byte>): seq<byte> {
    if |bytes| <= OUTPUT_CAP then bytes else bytes[..OUTPUT_CAP]
  }

  method AppendBounded(capture: seq<byte>, bytes: seq<byte>, ghost before: seq<byte>) returns (r: seq<byte>)
    requires capture == Bounded(before)
    ensures r == Bounded(before + bytes)
  {
    var remaining := if |capture| < OUTPUT_CAP then OUTPUT_CAP - |capture| else 0;
    r := capture + bytes[..if |bytes| < remaining then |bytes| else remaining];
  }

  /** One chunk, byte by byte. */
  method DrainChunk(codec: Codec, chunk: seq<byte>, before: seq<byte>, sent: seq<Option<Record>>, ghost read: seq<byte>)
      returns (pending: seq<byte>, records: seq<Option<Record>>)
    requires FedAll(codec, read) == Drain(before, sent)
    ensures FedAll(codec, read + chunk) == Drain(pending, records)
  {
    pending, records := before, sent;
    assert read + chunk[..0] == read;
    for j := 0 to |chunk|
      invariant FedAll(codec, read + chunk[..j]) == Drain(pending, records)
    {
      OneMore(codec, read, chunk, j);
      if chunk[j] == NEWLINE {
        records := records + [codec.decode(pending)];
        pending := [];
      } else if |pending| < LINE_CAP {
        pending := pending + [chunk[j]];
      } else {
        records := records + [None];
        pending := [];
      }
    }
    assert chunk[..|chunk|] == chunk;
  }

  /**
   * However the stream is cut into chunks, the records sent are those of the whole stream, and the
   * capture is its first 32 KiB.
   */
  method DrainStdout(codec: Codec, chunks: seq<seq<byte>>) returns (records: seq<Option<Record>>, capture: seq<byte>)
    ensures records == Parsed(codec, Received(chunks))
    ensures capture <= Received(chunks) && |capture| <= 32768 && (|capture| == 32768 || capture == Received(chunks))
  {
    records, capture := [], [];
    var pending: seq<byte> := [];
    ghost var read: seq<byte> := [];
    var i := 0;
    while i < |chunks| && chunks[i] != []
      invariant 0 <= i <= |chunks|
      invariant Received(chunks) == read + Received(chunks[i..])
      invariant FedAll(codec, read) == Drain(pending, records)
      invariant capture == Bounded(read)
    {
      var chunk := chunks[i];
      capture := AppendBounded(capture, chunk, read);
      pending, records := DrainChunk(codec, chunk, pending, records, read);
      assert chunks[i..][1..] == chunks[i + 1..];
      assert read + (chunk + Received(chunks[i + 1..])) == (read + chunk) + Received(chunks[i + 1..]);
      read := read + chunk;
      i := i + 1;
    }
    assert Received(chunks[i..]) == [] && read + [] == read;
    if pending != [] {
      records := records + [codec.decode(pending)];
    }
  }

  lemma OneMore(codec: Codec, read: seq<byte>, chunk: seq<byte>, j: nat)
    requires j < |chunk|
    ensures FedAll(codec, read + chunk[..j + 1]) == Fed(codec, FedAll(codec, read + chunk[..j]), chunk[j])
  {
    assert (read + chunk[..j + 1])[..|read| + j] == read + chunk[..j];
  }

  lemma {:induction false} LineIsPending(codec: Codec, before: seq<byte>, line: seq<byte>)
    requires FedAll(codec, before).pending == [] && NEWLINE !in line && |line| <= LINE_CAP
    ensures FedAll(codec, before + line) == Drain(line, FedAll(codec, before).sent)
    decreases |line|
  {
    if line == [] {
      assert before + line == before;
    } else {
      var n := |line| - 1;
      LineIsPending(codec, before, line[..n]);
      OneMore(codec, before, line, n);
      assert line[..n + 1] == line && line[..n] + [line[n]] == line;
    }
  }

  function Arrived(records: seq<Record>): (r: seq<Option<Record>>)
    ensures |r| == |records| && forall i :: 0 <= i < |r| ==> r[i] == Some(records[i])
  {
    seq(|records|, i requires 0 <= i < |records| => Some(records[i]))
  }

  /** The drain recovers exactly the records written. */
  lemma {:induction false} StreamRoundTrip(codec: Codec, records: seq<Record>)
    requires forall r :: r in records ==> codec.Carries(r)
    ensures FedAll(codec, Stream(codec, records)) == Drain([], Arrived(records))
    ensures Parsed(codec, Stream(codec, records)) == Arrived(records)
    decreases |records|
  {
    if records != [] {
      var n := |records| - 1;
      var before, line := Stream(codec, records[..n]), codec.encode(records[n]);
      StreamRoundTrip(codec, records[..n]);
      assert records[n] in records && codec.Carries(records[n]);
      LineIsPending(codec, before, line);
      var bytes := before + line;
      assert Stream(codec, records) == bytes + [NEWLINE] && (bytes + [NEWLINE])[..|bytes|] == bytes;
      assert Arrived(records) == Arrived(records[..n]) + [Some(records[n])];
    }
  }

  // ---------------------------------------------------------------- the supervisor

  datatype Monitor = Monitor(lastEpoch: nat, valid: bool, completionSeen: bool, stats: Stats,
        terminal: Option<Terminal>)

  const FRESH := Monitor(0, true, false, NO_STATS, None)

  predicate Acceptable(m: Monitor, r: Option<Record>) {
    && r.Some?
    && r.value.version == PROTOCOL_VERSION
    && r.value.epoch > m.lastEpoch
    && !m.completionSeen
    && r.value.completed == r.value.terminal.Some?
  }

  function Noted(m: Monitor, r: Option<Record>): Monitor {
    if Acceptable(m, r) then
      var terminal := if r.value.completed then r.value.terminal else m.terminal;
      Monitor(r.value.epoch, m.valid, m.completionSeen || r.value.completed, r.value.stats, terminal)
    else m.(valid := false)
  }

  function NotedAll(records: seq<Option<Record>>): Monitor {
    if records == [] then FRESH else Noted(NotedAll(records[..|records| - 1]), records[|records| - 1])
  }

  datatype Verdict = Accepted(stats: Stats, terminal: Terminal) | UncleanExit | Interrupted | TimedOut

  function Judged(m: Monitor, success: bool): Verdict {
    if !success || !m.valid || !m.completionSeen || m.terminal.None? then UncleanExit
    else Accepted(m.stats, m.terminal.value)
  }

  /** One round of the live loop: records that have arrived, whether the child is gone, and the reasons to end it. */
  datatype Poll = Poll(arrived: nat, exited: bool, cancelled: bool, overdue: bool)

  /** Nobody cancels, and the worker never goes silent for too long. */
  ghost predicate Undisturbed(polls: seq<Poll>, progress: nat -> bool) {
    && (forall p :: p in polls ==> !p.cancelled && !p.overdue)
    && forall n :: !progress(n)
  }

  /** How many of the records the protocol accepts, and so reports to the caller. */
  function Reports(records: seq<Option<Record>>): nat {
    if records == [] then 0
    else
      var before := records[..|records| - 1];
      Reports(before) + if Acceptable(NotedAll(before), records[|records| - 1]) then 1 else 0
  }

  lemma {:induction false} ReportsGrow(records: seq<Option<Record>>, n: nat)
    requires n <= |records|
    ensures Reports(records[..n]) <= Reports(records)
    decreases |records|
  {
    if n < |records| {
      ReportsGrow(records[..|records| - 1], n);
      assert records[..|records| - 1][..n] == records[..n];
    } else {
      assert records[..n] == records;
    }
  }

  lemma CancelAt(progress: nat -> bool, before: nat, n: nat, after: nat)
    requires before < n <= after && progress(n)
    ensures AskedToCancel(progress, before, after)
  {
  }

  lemma NoCancelAt(progress: nat -> bool, before: nat, n: nat)
    requires before < n && !AskedToCancel(progress, before, n - 1) && !progress(n)
    ensures !AskedToCancel(progress, before, n)
  {
  }

  lemma ReportsWithin(records: seq<Option<Record>>, n: nat, due: nat)
    requires n <= due <= |records|
    ensures Reports(records[..n]) <= Reports(records[..due])
  {
    assert records[..due][..n] == records[..n];
    ReportsGrow(records[..due], n);
  }

  function Arrivals(polls: seq<Poll>, i: nat): nat
    requires i <= |polls|
  {
    if i == 0 then 0 else Arrivals(polls, i - 1) + polls[i - 1].arrived
  }

  /** How many records are taken before round `i`. */
  function Taken(records: seq<Option<Record>>, polls: seq<Poll>, i: nat): (n: nat)
    requires i <= |polls|
    ensures n <= |records|
  {
    if Arrivals(polls, i) < |records| then Arrivals(polls, i) else |records|
  }

  /** How often the caller has been told of a record before round `i`. */
  function Told(records: seq<Option<Record>>, polls: seq<Poll>, i: nat): nat
    requires i <= |polls|
  {
    Reports(records[..Taken(records, polls, i)])
  }

  ghost predicate AskedToCancel(progress: nat -> bool, before: nat, after: nat) {
    exists n: nat :: before < n <= after && progress(n)
  }

  /**
   * The caller cancels in round `i`: when it is told of one of the records that arrived, or, as long as the
   * child runs, afterwards. Before round `i` it has been asked once for each record reported and each round.
   */
  ghost predicate CancelledIn(records: seq<Option<Record>>, polls: seq<Poll>, progress: nat -> bool, i: nat)
    requires i < |polls|
  {
    var before, after := Told(records, polls, i) + i, Told(records, polls, i + 1) + i;
    || AskedToCancel(progress, before, after)
    || (!polls[i].exited && (polls[i].cancelled || progress(after + 1)))
  }

  ghost predicate OverdueIn(polls: seq<Poll>, i: nat)
    requires i < |polls|
  {
    !polls[i].exited && polls[i].overdue
  }

  /** Round `i` is reached: the child has not exited before, and nothing has ended the run. */
  ghost predicate Reached(records: seq<Option<Record>>, polls: seq<Poll>, progress: nat -> bool, i: nat)
    requires i <= |polls|
  {
    forall j :: 0 <= j < i ==>
      !polls[j].exited && !CancelledIn(records, polls, progress, j) && !OverdueIn(polls, j)
  }

  ghost predicate Cancels(records: seq<Option<Record>>, polls: seq<Poll>, progress: nat -> bool) {
    exists i :: 0 <= i < |polls| && Reached(records, polls, progress, i) && CancelledIn(records, polls, progress, i)
  }

  ghost predicate TimesOut(records: seq<Option<Record>>, polls: seq<Poll>, progress: nat -> bool) {
    exists i :: 0 <= i < |polls| && Reached(records, polls, progress, i) && !CancelledIn(records, polls, progress, i)
                && OverdueIn(polls, i)
  }

  lemma UndisturbedRuns(records: seq<Option<Record>>, polls: seq<Poll>, progress: nat -> bool)
    requires Undisturbed(polls, progress)
    ensures !Cancels(records, polls, progress) && !TimesOut(records, polls, progress)
  {
    forall i | 0 <= i < |polls| ensures !CancelledIn(records, polls, progress, i) && !OverdueIn(polls, i) {
      assert polls[i] in polls;
    }
  }

  datatype Ending = Ran | Cancel | Timeout

  /** How the live loop ends from round `i` on. */
  ghost function EndOf(records: seq<Option<Record>>, polls: seq<Poll>, progress: nat -> bool, i: nat): Ending
    requires i <= |polls|
    decreases |polls| - i
  {
    if i == |polls| then Ran
    else if CancelledIn(records, polls, progress, i) then Cancel
    else if polls[i].exited then Ran
    else if polls[i].overdue then Timeout
    else EndOf(records, polls, progress, i + 1)
  }

  /** Nothing ends a run before or after the first reason to end it. */
  lemma OneEnd(records: seq<Option<Record>>, polls: seq<Poll>, progress: nat -> bool, i: nat, k: nat)
    requires i < |polls| && Reached(records, polls, progress, i) && k < |polls| && Reached(records, polls, progress, k)
    ensures CancelledIn(records, polls, progress, k) || OverdueIn(polls, k) ==> i <= k
    ensures CancelledIn(records, polls, progress, i) || OverdueIn(polls, i) || polls[i].exited ==> k <= i
  {
  }

  lemma {:induction false} EndsExactly(records: seq<Option<Record>>, polls: seq<Poll>, progress: nat -> bool, i: nat)
    requires i <= |polls| && Reached(records, polls, progress, i)
    ensures EndOf(records, polls, progress, i) == Cancel <==> Cancels(records, polls, progress)
    ensures EndOf(records, polls, progress, i) == Timeout <==> TimesOut(records, polls, progress)
    decreases |polls| - i
  {
    if i < |polls| {
      var cancelled := CancelledIn(records, polls, progress, i);
      if cancelled || polls[i].exited || polls[i].overdue {
        forall k | 0 <= k < |polls| && Reached(records, polls, progress, k)
          ensures CancelledIn(records, polls, progress, k) || OverdueIn(polls, k) ==> k == i
        {
          OneEnd(records, polls, progress, i, k);
        }
      } else {
        assert Reached(records, polls, progress, i + 1);
        EndsExactly(records, polls, progress, i + 1);
      }
    }
  }

  lemma NotedNext(records: seq<Option<Record>>, n: nat)
    requires n < |records|
    ensures NotedAll(records[..n + 1]) == Noted(NotedAll(records[..n]), records[n])
    ensures Reports(records[..n + 1])
         == Reports(records[..n]) + if Acceptable(NotedAll(records[..n]), records[n]) then 1 else 0
  {
    assert records[..n + 1][..n] == records[..n];
  }

  /** One record: counted with its figures, or held against the worker. */
  method Note(before: Monitor, r: Option<Record>) returns (m: Monitor, reported: bool)
    ensures m == Noted(before, r) && reported == Acceptable(before, r)
  {
    if && r.Some? && r.value.version == PROTOCOL_VERSION && r.value.epoch > before.lastEpoch
       && !before.completionSeen && r.value.completed == r.value.terminal.Some?
    {
      var completionSeen := before.completionSeen || r.value.completed;
      var terminal := before.terminal;
      if r.value.completed {
        terminal := r.value.terminal;
      }
      return Monitor(r.value.epoch, before.valid, completionSeen, r.value.stats, terminal), true;
    }
    return before.(valid := false), false;
  }

  /** Takes the records up to `due`, reporting each accepted one; ends early when the caller cancels. */
  method TakeArrived(records: seq<Option<Record>>, first: nat, due: nat, before: Monitor, asked: nat,
        progress: nat -> bool, ghost i: nat)
      returns (m: Monitor, asks: nat, cancelled: bool)
    requires first <= due <= |records| && before == NotedAll(records[..first])
    requires asked == Reports(records[..first]) + i
    ensures cancelled <==> AskedToCancel(progress, asked, Reports(records[..due]) + i)
    ensures !cancelled ==> m == NotedAll(records[..due]) && asks == Reports(records[..due]) + i
  {
    m, asks := before, asked;
    for next := first to due
      invariant m == NotedAll(records[..next])
      invariant asked <= asks == Reports(records[..next]) + i
      invariant !AskedToCancel(progress, asked, asks)
    {
      NotedNext(records, next);
      ReportsWithin(records, next + 1, due);
      var reported;
      m, reported := Note(m, records[next]);
      if reported {
        asks := asks + 1;
        if progress(asks) {
          CancelAt(progress, asked, asks, Reports(records[..due]) + i);
          return m, asks, true;
        }
        NoCancelAt(progress, asked, asks);
      }
    }
    return m, asks, false;
  }

  /** What was left when the child exited is taken without asking the caller. */
  method TakeRest(records: seq<Option<Record>>, first: nat, before: Monitor) returns (m: Monitor)
    requires first <= |records| && before == NotedAll(records[..first])
    ensures m == NotedAll(records)
  {
    m := before;
    for next := first to |records|
      invariant m == NotedAll(records[..next])
    {
      NotedNext(records, next);
      var reported;
      m, reported := Note(m, records[next]);
    }
    assert records[..|records|] == records;
  }

  /**
   * The live loop ends with the round that notices the exit of the child; what has not arrived by then
   * is taken by the loop after it. `progress(n)` is the n-th answer of the caller's callback, true
   * asking to cancel. The run is cancelled or times out exactly when the first round with a reason to end
   * it says so; otherwise the verdict is that of the whole stream.
   */
  method Supervise(records: seq<Option<Record>>, polls: seq<Poll>, progress: nat -> bool, success: bool)
      returns (v: Verdict)
    ensures v == Interrupted <==> Cancels(records, polls, progress)
    ensures v == TimedOut <==> TimesOut(records, polls, progress)
    ensures v != Interrupted && v != TimedOut ==> v == Judged(NotedAll(records), success)
  {
    v := RunLoops(records, polls, progress, success);
    EndsExactly(records, polls, progress, 0);
  }

  /** One round of the live loop: what has arrived, then the child, then the reasons to end it. */
  method RunRound(records: seq<Option<Record>>, polls: seq<Poll>, progress: nat -> bool, i: nat, first: nat,
        before: Monitor, asked: nat)
      returns (end: Option<Ending>, next: nat, m: Monitor, asks: nat)
    requires i < |polls| && first == Taken(records, polls, i)
    requires before == NotedAll(records[..first]) && asked == Reports(records[..first]) + i
    ensures next == Taken(records, polls, i + 1)
    ensures end.Some? ==> EndOf(records, polls, progress, i) == end.value
    ensures end.None? ==>
              && EndOf(records, polls, progress, i) == EndOf(records, polls, progress, i + 1)
              && asks == Reports(records[..next]) + i + 1
    ensures end.None? || end.value == Ran ==> m == NotedAll(records[..next])
  {
    next := if polls[i].arrived < |records| - first then first + polls[i].arrived else |records|;
    assert next == Taken(records, polls, i + 1);
    var told;
    m, asks, told := TakeArrived(records, first, next, before, asked, progress, i);
    if told {
      return Some(Cancel), next, m, asks;
    }
    if polls[i].exited {
      return Some(Ran), next, m, asks;
    }
    asks := asks + 1;
    if polls[i].cancelled || progress(asks) {
      return Some(Cancel), next, m, asks;
    }
    return if polls[i].overdue then Some(Timeout) else None, next, m, asks;
  }

  method RunLoops(records: seq<Option<Record>>, polls: seq<Poll>, progress: nat -> bool, success: bool)
      returns (v: Verdict)
    ensures v == match EndOf(records, polls, progress, 0)
                 case Cancel => Interrupted
                 case Timeout => TimedOut
                 case Ran => Judged(NotedAll(records), success)
  {
    var m: Monitor, next: nat, asked: nat := FRESH, 0, 0;
    var end: Option<Ending> := None;
    for i := 0 to |polls|
      invariant next == Taken(records, polls, i) && m == NotedAll(records[..next])
      invariant asked == Reports(records[..next]) + i && end.None?
      invariant EndOf(records, polls, progress, 0) == EndOf(records, polls, progress, i)
    {
      end, next, m, asked := RunRound(records, polls, progress, i, next, m, asked);
      if end.Some? {
        break;
      }
    }
    if end == Some(Cancel) {
      return Interrupted;
    }
    if end == Some(Timeout) {
      return TimedOut;
    }
    m := TakeRest(records, next, m);
    if !success || !m.valid || !m.completionSeen || m.terminal.None? {
      return UncleanExit;
    }
    return Accepted(m.stats, m.terminal.value);
  }

  // ---------------------------------------------------------------- which streams are accepted

  /** A record stream that follows the protocol so far. */
  ghost predicate Orderly(records: seq<Option<Record>>) {
    && (forall i :: 0 <= i < |records| ==>
          && records[i].Some? && records[i].value.version == PROTOCOL_VERSION && records[i].value.epoch > 0
          && records[i].value.completed == records[i].value.terminal.Some?)
    && (forall i, j :: 0 <= i < j < |records| ==>
          records[i].value.epoch < records[j].value.epoch && !records[i].value.completed)
  }

  lemma {:induction false} ValidExactlyWhenOrderly(records: seq<Option<Record>>)
    ensures NotedAll(records).valid <==> Orderly(records)
    ensures Orderly(records) && records != [] ==>
              var last := records[|records| - 1].value;
              NotedAll(records) == Monitor(last.epoch, true, last.completed, last.stats, last.terminal)
    decreases |records|
  {
    if records != [] {
      var n := |records| - 1;
      var before := records[..n];
      ValidExactlyWhenOrderly(before);
      if Orderly(records) {
        OrderlyPrefix(records);
      }
      if Orderly(before) && Acceptable(NotedAll(before), records[n]) {
        OrderlyStep(before, records[n]);
        assert before + [records[n]] == records;
      }
    }
  }

  lemma OrderlyPrefix(records: seq<Option<Record>>)
    requires records != [] && Orderly(records)
    ensures Orderly(records[..|records| - 1])
    ensures |records| > 1 ==>
              var last := records[|records| - 2].value;
              last.epoch < records[|records| - 1].value.epoch && !last.completed
  {
  }

  lemma OrderlyStep(before: seq<Option<Record>>, r: Option<Record>)
    requires Orderly(before) && r.Some? && r.value.version == PROTOCOL_VERSION && r.value.epoch > 0
    requires r.value.completed == r.value.terminal.Some?
    requires before != [] ==> r.value.epoch > before[|before| - 1].value.epoch && !before[|before| - 1].value.completed
    ensures Orderly(before + [r])
  {
    var all := before + [r];
    forall i, j | 0 <= i < j < |all| ensures all[i].value.epoch < all[j].value.epoch && !all[i].value.completed {
      if j == |before| && i < j - 1 {
        assert before[i].value.epoch < before[j - 1].value.epoch;
      }
    }
  }

  /**
   * A run is accepted exactly when the child succeeded and its records all parse, carry this version,
   * have strictly increasing epochs above zero, and exactly the last one is completed; the verdict is
   * then the last record's.
   */
  lemma AcceptedExactly(records: seq<Option<Record>>, success: bool)
    ensures (Judged(NotedAll(records), success).Accepted? <==>
             success && Orderly(records) && records != [] && records[|records| - 1].value.completed)
    ensures Judged(NotedAll(records), success).Accepted? ==>
              var last := records[|records| - 1].value;
              last.terminal.Some? && Judged(NotedAll(records), success) == Accepted(last.stats, last.terminal.value)
  {
    ValidExactlyWhenOrderly(records);
  }

  /** Below the epoch limit everything a worker emits is orderly, and its final record is the last. */
  lemma EmittedIsOrderly(events: seq<Event>, outcome: Outcome, stored: bool)
    ensures Orderly(Arrived(Emitted(events, outcome, stored))) <==>
            |Emitted(events, outcome, stored)| <= MAX_EPOCH
  {
    var records := Arrived(Emitted(events, outcome, stored));
    if |records| > MAX_EPOCH {
      assert records[MAX_EPOCH - 1].value.epoch == MAX_EPOCH == records[MAX_EPOCH].value.epoch;
    }
  }

  /**
   * End to end, for every chunking of the bytes and every split of the records between the two loops:
   * an undisturbed run whose records survive serialization is accepted exactly when the worker wrote
   * its final record, whole, before running out of epochs; with that record's figures.
   */
  method ScanRun(codec: Codec, room: Option<nat>, events: seq<Event>, outcome: Outcome, stored: bool,
        chunks: seq<seq<byte>>, polls: seq<Poll>, progress: nat -> bool)
      returns (v: Verdict)
    requires forall r :: r in Emitted(events, outcome, stored) ==> codec.Carries(r)
    requires Received(chunks) == Sent(room, Stream(codec, Emitted(events, outcome, stored)))
    ensures v in {Interrupted, TimedOut} ==> !Undisturbed(polls, progress)
    ensures Undisturbed(polls, progress) ==>
              v == if Finishes(outcome, stored) && Fits(room, |Stream(codec, Emitted(events, outcome, stored))|)
                      && |events| < 0xFFFF_FFFF_FFFF_FFFF
                   then Accepted(outcome.stats, outcome.terminal) else UncleanExit
  {
    var output, ok := RunWorkerRequest(codec, room, events, outcome, stored);
    var records, capture := DrainStdout(codec, chunks);
    StreamRoundTrip(codec, Emitted(events, outcome, stored));
    v := Supervise(records, polls, progress, ok);
    if Undisturbed(polls, progress) {
      UndisturbedRuns(records, polls, progress);
    }
    AcceptedExactly(records, ok);
    EmittedIsOrderly(events, outcome, stored);
  }

  /** A line beyond the cap can never be part of an accepted run, whatever surrounds it. */
  lemma OverlongLineIsRejected(codec: Codec, before: seq<byte>, line: seq<byte>, after: seq<byte>, success: bool)
    requires |line| > 8192 && NEWLINE !in line
    ensures Judged(NotedAll(Parsed(codec, before + line + after)), success) == UncleanExit
  {
    CapIsHit(codec, before, line);
    var d := FedAll(codec, before + line);
    SentOnlyGrows(codec, before + line, after);
    var records := Parsed(codec, before + line + after);
    assert d.sent <= records;
    var i :| 0 <= i < |d.sent| && d.sent[i] == None;
    assert records[i].None?;
    AcceptedExactly(records, success);
  }

  lemma {:induction false} SentOnlyGrows(codec: Codec, before: seq<byte>, after: seq<byte>)
    ensures FedAll(codec, before).sent <= FedAll(codec, before + after).sent
    decreases |after|
  {
    if after == [] {
      assert before + after == before;
    } else {
      var n := |after| - 1;
      SentOnlyGrows(codec, before, after[..n]);
      assert (before + after)[..|before| + n] == before + after[..n];
    }
  }

  /** Bytes without a newline pile up until the cap discards them and reports a malformed record. */
  lemma {:induction false} CapIsHit(codec: Codec, before: seq<byte>, line: seq<byte>)
    requires NEWLINE !in line
    ensures (None in FedAll(codec, before + line).sent
             || (FedAll(codec, before + line).pending == FedAll(codec, before).pending + line))
    decreases |line|
  {
    if line == [] {
      assert before + line == before;
    } else {
      var n := |line| - 1;
      CapIsHit(codec, before, line[..n]);
      OneMore(codec, before, line, n);
      assert line[..n + 1] == line;
      assert FedAll(codec, before).pending + line[..n] + [line[n]] == FedAll(codec, before).pending + line;
    }
  }
}
