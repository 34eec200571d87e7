/** The agent in its own step-by-step form: scanning under a checkpoint, queueing, uploading (agent.go,
    agent_schedule.go), proved against the reading of a source in Scanner. */
module Collector {
  import opened Wrappers
  import opened Wire
  import opened Scanner

  /* ---- The upload queue ---- */

  datatype SpoolRow = SpoolRow(number: nat, event: UsageEvent)
  datatype Spool = Spool(rows: seq<SpoolRow>, next: nat)

  predicate Queued(rows: seq<SpoolRow>, id: Id) {
    exists i :: 0 <= i < |rows| && rows[i].event.eventId == id
  }

  /** INSERT OR IGNORE under the unique event id. */
  function Enqueue(s: Spool, events: seq<UsageEvent>): Spool {
    if events == [] then s
    else
      var n := |events| - 1;
      var before := Enqueue(s, events[..n]);
      if Queued(before.rows, events[n].eventId) then before
      else Spool(before.rows + [SpoolRow(before.next, events[n])], before.next + 1)
  }

  ghost predicate Numbered(s: Spool) {
    && (forall i, j :: 0 <= i < j < |s.rows| ==> s.rows[i].number < s.rows[j].number)
    && (forall i :: 0 <= i < |s.rows| ==> s.rows[i].number < s.next)
  }

  lemma {:induction false} EnqueueKeepsNumbers(s: Spool, events: seq<UsageEvent>)
    requires Numbered(s)
    ensures Numbered(Enqueue(s, events)) && s.rows <= Enqueue(s, events).rows
  {
    if events != [] {
      EnqueueKeepsNumbers(s, events[..|events| - 1]);
    }
  }

  lemma {:induction false} EnqueueJoins(s: Spool, a: seq<UsageEvent>, b: seq<UsageEvent>)
    ensures Enqueue(s, a + b) == Enqueue(Enqueue(s, a), b)
  {
    if b == [] {
      assert a + b == a;
    } else {
      EnqueueJoins(s, a, b[..|b| - 1]);
      assert (a + b)[..|a + b| - 1] == a + b[..|b| - 1];
    }
  }

  function QueuedIds(rows: seq<SpoolRow>): set<Id> { set r | r in rows :: r.event.eventId }

  ghost predicate OneEach(rows: seq<SpoolRow>) {
    forall i, j :: 0 <= i < j < |rows| ==> rows[i].event.eventId != rows[j].event.eventId
  }

  /** The queue keeps what it has, in order, and holds one row for each event id that was queued; the row is the first event
      that came under that id. */
  lemma {:induction false} QueueHoldsFirst(s: Spool, events: seq<UsageEvent>, k: nat)
    requires OneEach(s.rows) && k < |events| && events[k].eventId !in QueuedIds(s.rows)
    requires forall i :: 0 <= i < k ==> events[i].eventId != events[k].eventId
    ensures var t := Enqueue(s, events);
            && s.rows <= t.rows && OneEach(t.rows)
            && exists i :: |s.rows| <= i < |t.rows| && t.rows[i].event == events[k]
  {
    hide QueuedIds;
    var n := |events| - 1;
    if k < n {
      QueueHoldsFirst(s, events[..n], k);
      var t := Enqueue(s, events[..n]);
      var i :| |s.rows| <= i < |t.rows| && t.rows[i].event == events[k];
      QueueAdds(t, events[n]);
      assert Enqueue(s, events).rows[i].event == events[k];
    } else {
      QueueGrows(s, events[..n]);
      QueueAdds(Enqueue(s, events[..n]), events[n]);
      var t, all := Enqueue(s, events[..n]), Enqueue(s, events);
      assert events[n].eventId !in QueuedIds(t.rows) by {
        NewIds(s, events[..n]);
      }
      NotQueued(t.rows, events[n].eventId);
      assert all.rows[|t.rows|].event == events[n];
    }
  }

  lemma NotQueued(rows: seq<SpoolRow>, id: Id)
    ensures Queued(rows, id) <==> id in QueuedIds(rows)
  {
  }

  lemma QueueAdds(s: Spool, e: UsageEvent)
    requires OneEach(s.rows)
    ensures var t := if Queued(s.rows, e.eventId) then s else Spool(s.rows + [SpoolRow(s.next, e)], s.next + 1);
            s.rows <= t.rows && OneEach(t.rows)
  {
  }

  lemma {:induction false} QueueGrows(s: Spool, events: seq<UsageEvent>)
    requires OneEach(s.rows)
    ensures s.rows <= Enqueue(s, events).rows && OneEach(Enqueue(s, events).rows)
  {
    hide OneEach;
    if events != [] {
      QueueGrows(s, events[..|events| - 1]);
      QueueAdds(Enqueue(s, events[..|events| - 1]), events[|events| - 1]);
    }
  }

  lemma {:induction false} NewIds(s: Spool, events: seq<UsageEvent>)
    ensures forall id :: id in QueuedIds(Enqueue(s, events).rows) ==> id in QueuedIds(s.rows) || exists e :: e in events && e.eventId == id
  {
    hide QueuedIds;
    if events != [] {
      var n := |events| - 1;
      NewIds(s, events[..n]);
      OneMoreId(Enqueue(s, events[..n]).rows, SpoolRow(Enqueue(s, events[..n]).next, events[n]));
      assert events == events[..n] + [events[n]];
    }
  }

  lemma OneMoreId(rows: seq<SpoolRow>, row: SpoolRow)
    ensures QueuedIds(rows + [row]) == QueuedIds(rows) + {row.event.eventId}
  {
  }

  /* ---- One scan, with its limits ---- */

  datatype ScanError = LineTooLong(offset: nat) | NotCommitted

  /** Reading on from `c`, in a scan that began at `base` and has read `lines` lines: up to the end of the file
      or, when chunked, of the chunk; a record over the limit blocks the scan. */
  function ScanChunk(a: Agent, file: seq<byte>, base: nat, c: Cursor, lines: nat, chunked: bool): Result<(Cursor, seq<UsageEvent>), ScanError>
    decreases |file| - c.offset
  {
    var step := NextLine(a, file, c);
    var length := if step.Some? then step.value.0.offset - c.offset else |file| - c.offset;
    if length > LINE_LIMIT then Err(LineTooLong(c.offset))
    else if step.None? then Ok((c, []))
    else if chunked && (lines + 1 >= CHUNK_LINES || step.value.0.offset - base >= CHUNK_BYTES) then Ok(step.value)
    else
      match ScanChunk(a, file, base, step.value.0, lines + 1, chunked)
      case Err(e) => Err(e)
      case Ok(rest) => Ok((rest.0, step.value.1 + rest.1))
  }

  /** A chunk that commits is a scan of the file up to where it stopped, it is the whole scan unless it was cut
      short, and it stands still only when there is no complete line to read. */
  lemma {:induction false} ChunkIsScan(a: Agent, file: seq<byte>, base: nat, c: Cursor, lines: nat, chunked: bool)
    requires c.offset <= |file|
    requires ScanChunk(a, file, base, c, lines, chunked).Ok?
    ensures var r := ScanChunk(a, file, base, c, lines, chunked).value;
            && c.offset <= r.0.offset <= |file|
            && r == Consume(a, file[..r.0.offset], c)
            && (!chunked ==> r == Consume(a, file, c))
            && (r.0.offset == c.offset ==> NextLine(a, file, c).None?)
    decreases |file| - c.offset
  {
    hide NextLine;
    var r := ScanChunk(a, file, base, c, lines, chunked).value;
    var step := NextLine(a, file, c);
    if step.None? {
      NextLineInPrefix(a, file, c.offset, c);
    } else {
      if chunked && (lines + 1 >= CHUNK_LINES || step.value.0.offset - base >= CHUNK_BYTES) {
        NextLineInPrefix(a, file, r.0.offset, c);
        NextLineInPrefix(a, file, r.0.offset, step.value.0);
        assert step.value.1 + [] == step.value.1;
      } else {
        ChunkIsScan(a, file, base, step.value.0, lines + 1, chunked);
        NextLineInPrefix(a, file, r.0.offset, c);
      }
    }
  }

  /** A chunk that ends with a complete line still to read has read 512 lines, or a mebibyte. */
  lemma {:induction false} ChunkStopsLate(a: Agent, file: seq<byte>, base: nat, c: Cursor, lines: nat, chunked: bool)
    requires c.offset <= |file| && (chunked ==> lines < 512)
    requires ScanChunk(a, file, base, c, lines, chunked).Ok?
    ensures var end := ScanChunk(a, file, base, c, lines, chunked).value.0.offset;
            && c.offset <= end <= |file|
            && (LineEnd(file, end).Some? ==>
                  chunked && (1_048_576 <= end - base || 512 == lines + |Lines(file, c.offset)| - |Lines(file, end)|))
    decreases |file| - c.offset
  {
    hide StepLine, LineEnd, Trim;
    var step := NextLine(a, file, c);
    if step.Some? {
      LineMoves(a, c, file[c.offset..LineEnd(file, c.offset).value]);
      if !(chunked && (lines + 1 >= CHUNK_LINES || step.value.0.offset - base >= CHUNK_BYTES)) {
        ChunkStopsLate(a, file, base, step.value.0, lines + 1, chunked);
      }
    }
  }

  /** A scan that is not chunked is blocked exactly by a record over the limit, an unfinished one included, and then by the
      first there is. */
  lemma {:induction false} BlockedExactly(a: Agent, file: seq<byte>, base: nat, c: Cursor, lines: nat)
    requires c.offset <= |file|
    ensures var r := ScanChunk(a, file, base, c, lines, false);
            && (r.Err? <==> Overlong(file, c.offset))
            && (r.Err? ==> r.error.LineTooLong? && c.offset <= r.error.offset && RunsOn(file, r.error.offset))
    decreases |file| - c.offset
  {
    hide StepLine, Trim;
    var step := NextLine(a, file, c);
    if step.Some? {
      LineMoves(a, c, file[c.offset..LineEnd(file, c.offset).value]);
      BlockedExactly(a, file, base, step.value.0, lines + 1);
    }
  }

  /** The outcome of a scan that has emitted `events` so far and goes on from `c`. */
  function Onward(a: Agent, file: seq<byte>, base: nat, c: Cursor, lines: nat, chunked: bool, events: seq<UsageEvent>)
    : Result<(Cursor, seq<UsageEvent>), ScanError>
  {
    match ScanChunk(a, file, base, c, lines, chunked)
    case Err(e) => Err(e)
    case Ok(rest) => Ok((rest.0, events + rest.1))
  }

  lemma OnwardStep(a: Agent, file: seq<byte>, base: nat, c: Cursor, lines: nat, chunked: bool, events: seq<UsageEvent>)
    ensures var step := NextLine(a, file, c);
            var length := if step.Some? then step.value.0.offset - c.offset else |file| - c.offset;
            Onward(a, file, base, c, lines, chunked, events) ==
              if length > LINE_LIMIT then Err(LineTooLong(c.offset))
              else if step.None? then Ok((c, events))
              else if chunked && (lines + 1 >= CHUNK_LINES || step.value.0.offset - base >= CHUNK_BYTES)
              then Ok((step.value.0, events + step.value.1))
              else Onward(a, file, base, step.value.0, lines + 1, chunked, events + step.value.1)
  {
    var step := NextLine(a, file, c);
    assert events + [] == events;
    if step.Some? {
      var rest := ScanChunk(a, file, base, step.value.0, lines + 1, chunked);
      if rest.Ok? {
        assert events + (step.value.1 + rest.value.1) == (events + step.value.1) + rest.value.1;
      }
    }
  }

  /* ---- The baseline of a file that was there before monitoring ---- */

  const USAGE_MARK: seq<byte> :=
    [34, 116, 111, 116, 97, 108, 95, 116, 111, 107, 101, 110, 95, 117, 115, 97, 103, 101, 34]  // "total_token_usage", quoted

  predicate Mentions(line: seq<byte>, mark: seq<byte>)
    decreases |line|
  {
    mark <= line || (line != [] && Mentions(line[1..], mark))
  }

  predicate StandsAt(line: seq<byte>, mark: seq<byte>, i: int) {
    0 <= i <= |line| - |mark| && line[i..i + |mark|] == mark
  }

  /** A line mentions the mark if the mark stands in it somewhere. */
  lemma {:induction false} MentionsSomewhere(line: seq<byte>, mark: seq<byte>)
    ensures Mentions(line, mark) <==> exists i :: StandsAt(line, mark, i)
    decreases |line|
  {
    if mark <= line {
      assert StandsAt(line, mark, 0);
    } else if line != [] {
      MentionsSomewhere(line[1..], mark);
      hide Mentions;
      assert Mentions(line, mark) <==> Mentions(line[1..], mark) by { MentionsOn(line, mark); }
      forall i ensures StandsAt(line[1..], mark, i) ==> StandsAt(line, mark, i + 1) {
        OneOn(line, mark, i);
      }
      if i :| StandsAt(line, mark, i) {
        OneOn(line, mark, i - 1);
        assert StandsAt(line[1..], mark, i - 1);
      }
    }
  }

  lemma MentionsOn(line: seq<byte>, mark: seq<byte>)
    requires line != [] && !(mark <= line)
    ensures Mentions(line, mark) <==> Mentions(line[1..], mark)
  {
  }

  lemma OneOn(line: seq<byte>, mark: seq<byte>, i: int)
    requires line != [] && !(mark <= line)
    ensures StandsAt(line[1..], mark, i) <==> StandsAt(line, mark, i + 1)
  {
    if 0 <= i <= |line| - 1 - |mark| {
      assert line[1..][i..i + |mark|] == line[i + 1..i + 1 + |mark|];
    } else if i == -1 && |mark| <= |line| {
      assert line[0..|mark|] == line[..|mark|];
    }
  }

  type LastReadings = map<string, (Parsed, nat)>

  /** The end of the record that starts at `from`, an unfinished one included. */
  function UpTo(file: seq<byte>, from: nat): (end: nat)
    requires from < |file|
    ensures from < end <= |file|
  {
    match LineEnd(file, from) case Some(e) => e case None => |file|
  }

  /** The last exact reading of each conversation in the file, an unfinished last line included. */
  function BaselineReadings(a: Agent, file: seq<byte>, from: nat, context: ParseContext, last: LastReadings): LastReadings
    requires from <= |file|
    decreases |file| - from
  {
    if from == |file| then last
    else
      var end := UpTo(file, from);
      var line := file[from..end];
      if !Mentions(line, USAGE_MARK) then BaselineReadings(a, file, end, context, last)
      else
        var (context', found) := ParseRecord(a, context, Trim(line), from);
        match found
        case Some(p) =>
          BaselineReadings(a, file, end, context', if p.kind.ExactUsage? then last[p.conversationId := (p, from)] else last)
        case None => BaselineReadings(a, file, end, context', last)
  }

  /* ---- Which readings those are ---- */

  /** The exact readings of the file's marked records, in the order they stand in, each with its offset. */
  function MarkedReadings(a: Agent, file: seq<byte>, from: nat, context: ParseContext): seq<(Parsed, nat)>
    requires from <= |file|
    decreases |file| - from
  {
    if from == |file| then []
    else
      var end := UpTo(file, from);
      var line := file[from..end];
      if !Mentions(line, USAGE_MARK) then MarkedReadings(a, file, end, context)
      else
        var (after, found) := ParseRecord(a, context, Trim(line), from);
        var rest := MarkedReadings(a, file, end, after);
        if found.Some? && found.value.kind.ExactUsage? then [(found.value, from)] + rest else rest
  }

  predicate NamedIn(rs: seq<(Parsed, nat)>, c: string) {
    exists i :: 0 <= i < |rs| && rs[i].0.conversationId == c
  }

  /** One of the conversation's readings, and none of them stands further on in the file. */
  ghost predicate IsLatest(rs: seq<(Parsed, nat)>, c: string, r: (Parsed, nat)) {
    r in rs && r.0.conversationId == c && forall q :: q in rs && q.0.conversationId == c ==> q.1 <= r.1
  }

  /** Every conversation that has a reading, with its latest. */
  ghost predicate LatestOf(rs: seq<(Parsed, nat)>, last: LastReadings) {
    && (forall c :: c in last <==> NamedIn(rs, c))
    && (forall c :: c in last ==> IsLatest(rs, c, last[c]))
  }

  /** Exact readings at increasing offsets, all of them from `from` on. */
  ghost predicate Placed(rs: seq<(Parsed, nat)>, from: nat) {
    && (forall i :: 0 <= i < |rs| ==> from <= rs[i].1 && rs[i].0.kind.ExactUsage?)
    && (forall i, j :: 0 <= i < j < |rs| ==> rs[i].1 < rs[j].1)
  }

  lemma PlacedEarlier(rest: seq<(Parsed, nat)>, end: nat, from: nat)
    requires Placed(rest, end) && from <= end
    ensures Placed(rest, from)
  {
  }

  lemma PlacedBefore(rest: seq<(Parsed, nat)>, r: (Parsed, nat), end: nat)
    requires Placed(rest, end) && r.1 < end && r.0.kind.ExactUsage?
    ensures Placed([r] + rest, r.1) && forall i :: 0 <= i < |rest| ==> r.1 < rest[i].1
  {
  }

  lemma {:induction false} MarkedInOrder(a: Agent, file: seq<byte>, from: nat, context: ParseContext)
    requires from <= |file|
    ensures Placed(MarkedReadings(a, file, from, context), from)
    decreases |file| - from
  {
    assert Placed([], from);
    hide Placed;
    if from < |file| {
      var end := UpTo(file, from);
      var line := file[from..end];
      var (after, found) := ParseRecord(a, context, Trim(line), from);
      var next := if Mentions(line, USAGE_MARK) then after else context;
      MarkedInOrder(a, file, end, next);
      var rest := MarkedReadings(a, file, end, next);
      PlacedEarlier(rest, end, from);
      if found.Some? && found.value.kind.ExactUsage? {
        PlacedBefore(rest, (found.value, from), end);
      }
    }
  }

  /** Reading on from somewhere, later readings take the place of what is remembered of their conversation. */
  lemma {:induction false} LaterOverwrite(a: Agent, file: seq<byte>, from: nat, context: ParseContext, last: LastReadings)
    requires from <= |file|
    ensures var rs, all := MarkedReadings(a, file, from, context), BaselineReadings(a, file, from, context, last);
            && (forall c :: c in all <==> c in last || NamedIn(rs, c))
            && (forall c :: c in all ==> if NamedIn(rs, c) then IsLatest(rs, c, all[c]) else c in last && all[c] == last[c])
    decreases |file| - from
  {
    assert forall c :: !NamedIn([], c);
    hide IsLatest, NamedIn, Mentions, Trim, ParseRecord, LineEnd;
    if from < |file| {
      var end := UpTo(file, from);
      var line := file[from..end];
      if Mentions(line, USAGE_MARK) {
        var (after, found) := ParseRecord(a, context, Trim(line), from);
        if found.Some? && found.value.kind.ExactUsage? {
          var p := found.value;
          LaterOverwrite(a, file, end, after, last[p.conversationId := (p, from)]);
          MarkedInOrder(a, file, end, after);
          PlacedBefore(MarkedReadings(a, file, end, after), (p, from), end);
          FirstOfMarked(MarkedReadings(a, file, end, after), (p, from), last,
                        BaselineReadings(a, file, end, after, last[p.conversationId := (p, from)]));
        } else {
          LaterOverwrite(a, file, end, after, last);
        }
      } else {
        LaterOverwrite(a, file, end, context, last);
      }
    }
  }

  lemma FirstOfMarked(rest: seq<(Parsed, nat)>, r: (Parsed, nat), last: LastReadings, all: LastReadings)
    requires forall i :: 0 <= i < |rest| ==> r.1 < rest[i].1
    requires forall c :: c in all <==> c in last[r.0.conversationId := r] || NamedIn(rest, c)
    requires forall c :: c in all ==>
               if NamedIn(rest, c) then IsLatest(rest, c, all[c])
               else c in last[r.0.conversationId := r] && all[c] == last[r.0.conversationId := r][c]
    ensures var rs := [r] + rest;
            && (forall c :: c in all <==> c in last || NamedIn(rs, c))
            && (forall c :: c in all ==> if NamedIn(rs, c) then IsLatest(rs, c, all[c]) else c in last && all[c] == last[c])
  {
    var rs := [r] + rest;
    assert rs[0] == r && forall i :: 0 <= i < |rest| ==> rs[i + 1] == rest[i];
    forall c ensures NamedIn(rs, c) <==> c == r.0.conversationId || NamedIn(rest, c) {
      if NamedIn(rest, c) {
        var i :| 0 <= i < |rest| && rest[i].0.conversationId == c;
        assert rs[i + 1].0.conversationId == c;
      }
    }
  }

  /** The baseline of a file is, for exactly the conversations that have a reading in it, the latest one. */
  lemma BaselineIsLatest(a: Agent, file: seq<byte>)
    ensures LatestOf(MarkedReadings(a, file, 0, FreshContext(a.sourceId)), BaselineReadings(a, file, 0, FreshContext(a.sourceId), map[]))
  {
    LaterOverwrite(a, file, 0, FreshContext(a.sourceId), map[]);
  }

  /** Whether a record, an unfinished last one included, is over the limit: then the file cannot be taken over. */
  predicate Overlong(file: seq<byte>, from: nat)
    requires from <= |file|
    decreases |file| - from
  {
    from < |file| &&
    var end := UpTo(file, from);
    end - from > LINE_LIMIT || Overlong(file, end)
  }

  predicate RunsOn(file: seq<byte>, i: nat) { i + LINE_LIMIT < |file| && LF !in file[i..i + LINE_LIMIT] }

  lemma NoFeed(file: seq<byte>, i: nat)
    requires RunsOn(file, i)
    ensures forall j :: i <= j < i + LINE_LIMIT ==> file[j] != LF
  {
    forall j | i <= j < i + LINE_LIMIT ensures file[j] != LF {
      assert file[i..i + LINE_LIMIT][j - i] in file[i..i + LINE_LIMIT];
    }
  }

  /** A file is overlong if there are more bytes than the limit from some place on, and no line feed among that many. */
  lemma {:induction false} OverlongSomewhere(file: seq<byte>, from: nat)
    requires from <= |file|
    ensures Overlong(file, from) <==> exists i: nat :: from <= i && RunsOn(file, i)
    decreases |file| - from
  {
    if from < |file| {
      var end := UpTo(file, from);
      OverlongSomewhere(file, end);
      if end - from > LINE_LIMIT {
        assert RunsOn(file, from);
      }
      if i: nat :| from <= i && RunsOn(file, i) {
        NoFeed(file, i);
      }
    }
  }

  function BaselineEvent(a: Agent, size: nat, conversation: string, reading: (Parsed, nat)): UsageEvent {
    EventFor(a, reading.0, reading.1, 0).(
      kind := Baseline,
      eventId := Digest([Text(a.hostId), Text(a.sourceId), Text(conversation), Text("baseline"), Number(size)]))
  }

  /** A baseline event says what the reading said, where it stood, and belongs to the source's first generation. */
  lemma BaselineReports(a: Agent, size: nat, conversation: string, reading: (Parsed, nat))
    ensures var e, p := BaselineEvent(a, size, conversation, reading), reading.0;
            && e.kind == Baseline && e.sourceEpoch == 0 && (e.hostId, e.sourceId, e.byteOffset) == (a.hostId, a.sourceId, reading.1)
            && e.counts == p.counts && e.at == p.at && e.conversationId == p.conversationId && e.parentId == p.parentId
            && e.turnId == p.turnId && e.responseId == p.responseId && e.cacheWriteVisible == p.cacheWriteVisible
  {
  }

  /** The baseline events in the order the conversations happen to be listed. */
  function BaselineEvents(a: Agent, size: nat, last: LastReadings, order: seq<string>): (r: seq<UsageEvent>)
    requires forall i :: 0 <= i < |order| ==> order[i] in last
    ensures |r| == |order|
  {
    seq(|order|, i requires 0 <= i < |order| => BaselineEvent(a, size, order[i], last[order[i]]))
  }

  ghost predicate Lists(order: seq<string>, names: set<string>) {
    && (forall i :: 0 <= i < |order| ==> order[i] in names)
    && (forall c :: c in names ==> c in order)
    && (forall i, j :: 0 <= i < j < |order| ==> order[i] != order[j])
  }

  ghost predicate BaselineQueued(a: Agent, size: nat, last: LastReadings, before: Spool, after: Spool) {
    exists order :: Lists(order, last.Keys) && after == Enqueue(before, BaselineEvents(a, size, last, order))
  }

  /* ---- Uploads ---- */

  const UPLOAD_LIMIT := 256

  // What came back for one upload, and whether the deletion that follows it commits.
  datatype Reply = Reply(success: bool, accepted: Option<int>, deletes: bool)

  predicate Acknowledges(r: Reply, sent: nat) {
    r.success && r.accepted == Some(sent) && r.deletes
  }

  function BatchSize(pending: nat): nat { if pending < UPLOAD_LIMIT then pending else UPLOAD_LIMIT }

  /** How many rows a sequence of replies releases: whole batches, up to the first that is not acknowledged. */
  function Released(pending: nat, replies: seq<Reply>): (k: nat)
    ensures k <= pending
  {
    if pending == 0 || replies == [] || !Acknowledges(replies[0], BatchSize(pending)) then 0
    else BatchSize(pending) + Released(pending - BatchSize(pending), replies[1..])
  }

  /** Reply `i` takes the batch it answers: it came back as a success that names exactly the rows sent, and they were deleted. */
  predicate Takes(pending: nat, replies: seq<Reply>, i: nat) {
    && i < |replies| && 256 * i < pending
    && replies[i] == Reply(true, Some(if pending - 256 * i < 256 then pending - 256 * i else 256), true)
  }

  /** What leaves the queue is a whole batch of 256, or the remainder, for each reply up to the first that takes nothing. */
  lemma {:induction false} ReleasedExactly(pending: nat, replies: seq<Reply>, m: nat)
    requires (forall i: nat :: i < m ==> Takes(pending, replies, i)) && !Takes(pending, replies, m)
    ensures Released(pending, replies) == if pending < 256 * m then pending else 256 * m
    decreases m
  {
    if m != 0 {
      assert Takes(pending, replies, 0);
      var rest := pending - BatchSize(pending);
      assert replies[1..] == replies[1..][..];
      forall i: nat | i < m - 1 ensures Takes(rest, replies[1..], i) {
        assert Takes(pending, replies, i + 1);
      }
      assert !Takes(rest, replies[1..], m - 1) by {
        assert !Takes(pending, replies, m);
      }
      ReleasedExactly(rest, replies[1..], m - 1);
    }
  }

  function Without(rows: seq<SpoolRow>, number: nat): seq<SpoolRow> {
    if rows == [] then []
    else (if rows[0].number == number then [] else [rows[0]]) + Without(rows[1..], number)
  }

  lemma {:induction false} WithoutAbsent(rows: seq<SpoolRow>, number: nat)
    requires forall i :: 0 <= i < |rows| ==> rows[i].number != number
    ensures Without(rows, number) == rows
  {
    if rows != [] {
      WithoutAbsent(rows[1..], number);
    }
  }

  lemma OneStep(a: Agent, c: Cursor, line: seq<byte>)
    ensures |StepLine(a, c, line).1| <= 1 && StepLine(a, c, line).0.offset == c.offset + |line|
  {
  }

  lemma WithoutFirst(s: Spool)
    requires Numbered(s) && s.rows != []
    ensures Without(s.rows, s.rows[0].number) == s.rows[1..] && Numbered(s.(rows := s.rows[1..]))
  {
    WithoutAbsent(s.rows[1..], s.rows[0].number);
  }

  // What the scheduler remembers of a file it has read to the end.
  datatype Stamp = Stamp(path: string, size: nat, mtime: Instant)

  class Collector {
    const hostId: string
    const parse: Parser
    var files: map<string, Cursor>
    var spool: Spool
    var seen: map<string, Stamp>

    ghost predicate Valid()
      reads this
    {
      && Numbered(spool)
      && forall s :: s in seen ==> s in files && seen[s].size <= files[s].offset
    }

    function For(sourceId: string): Agent { Agent(hostId, sourceId, parse) }

    constructor (hostId: string, parse: Parser)
      ensures Valid() && this.hostId == hostId && this.parse == parse
      ensures files == map[] && spool == Spool([], 0)
    {
      this.hostId, this.parse := hostId, parse;
      files, spool, seen := map[], Spool([], 0), map[];
    }

    method Insert(e: UsageEvent)
      requires Valid()
      modifies this`spool
      ensures Valid() && spool == Enqueue(old(spool), [e])
    {
      assert [e][..0] == [] && Enqueue(spool, []) == spool;
      EnqueueKeepsNumbers(spool, [e]);
      var i := 0;
      while i < |spool.rows|
        invariant i <= |spool.rows| && spool == old(spool)
        invariant forall k :: 0 <= k < i ==> spool.rows[k].event.eventId != e.eventId
      {
        if spool.rows[i].event.eventId == e.eventId {
          return;
        }
        i := i + 1;
      }
      spool := Spool(spool.rows + [SpoolRow(spool.next, e)], spool.next + 1);
    }

    method InsertAll(events: seq<UsageEvent>)
      requires Valid() && |events| <= 1
      modifies this`spool
      ensures Valid() && spool == Enqueue(old(spool), events)
    {
      if events != [] {
        assert events == [events[0]];
        Insert(events[0]);
      }
    }

    /** The next complete line and what the parser makes of it; an overlong one blocks the scan. */
    method ReadMeterLine(a: Agent, file: seq<byte>, c: Cursor) returns (r: Result<Option<(Cursor, seq<UsageEvent>)>, ScanError>)
      ensures var step := NextLine(a, file, c);
              var length := if step.Some? then step.value.0.offset - c.offset else |file| - c.offset;
              r == if length > LINE_LIMIT then Err(LineTooLong(c.offset)) else Ok(step)
      ensures r.Ok? && r.value.Some? ==> |r.value.value.1| <= 1
    {
      hide StepLine;
      var end := c.offset;
      while end < |file| && file[end] != LF
        invariant c.offset <= end && (if c.offset <= |file| then end <= |file| else end == c.offset)
        invariant end <= |file| ==> LineEnd(file, c.offset) == LineEnd(file, end)
      {
        end := end + 1;
      }
      if end < |file| {
        end := end + 1;
        OneStep(a, c, file[c.offset..end]);
        if end - c.offset > LINE_LIMIT {
          return Err(LineTooLong(c.offset));
        }
        return Ok(Some(StepLine(a, c, file[c.offset..end])));
      }
      assert NextLine(a, file, c) == None;
      if end - c.offset > LINE_LIMIT {
        return Err(LineTooLong(c.offset));
      }
      return Ok(None);
    }

    /** One scan of a known source as one transaction: `size` is what the directory said, `file` what was read. */
    method ScanOne(sourceId: string, file: seq<byte>, size: nat, chunked: bool, commits: bool)
      returns (r: Result<nat, ScanError>)
      requires Valid() && sourceId in files
      modifies this`files, this`spool
      ensures seen == old(seen)
      ensures var start := Reopened(old(files[sourceId]), size);
              var scan := ScanChunk(For(sourceId), file, start.offset, start, 0, chunked);
              if scan.Ok? && commits then
                && r == Ok(scan.value.0.offset)
                && files == old(files)[sourceId := scan.value.0]
                && spool == Enqueue(old(spool), scan.value.1)
              else
                && r.Err? && files == old(files) && spool == old(spool)
      ensures Numbered(spool)
    {
      var a := For(sourceId);
      var c := files[sourceId];
      var savedSpool := spool;
      if size < c.offset {
        c := c.(offset := 0, generation := c.generation + 1, lastTotal := 0, initialised := false);
      }
      ghost var start := c;
      ghost var whole := Onward(a, file, start.offset, start, 0, chunked, []);
      ghost var events: seq<UsageEvent> := [];
      var base, lines, done := c.offset, 0, false;
      assert forall s: seq<UsageEvent> :: [] + s == s;
      while !done
        invariant Valid() && files == old(files) && seen == old(seen)
        invariant spool == Enqueue(savedSpool, events)
        invariant whole == if done then Ok((c, events)) else Onward(a, file, base, c, lines, chunked, events)
        decreases !done, |file| - c.offset
      {
        OnwardStep(a, file, base, c, lines, chunked, events);
        var line := ReadMeterLine(a, file, c);
        if line.Err? {
          spool := savedSpool;
          return Err(line.error);
        }
        if line.value.None? {
          break;
        }
        var (next, found) := line.value.value;
        EnqueueJoins(savedSpool, events, found);
        InsertAll(found);
        lines := lines + 1;
        done := chunked && (lines >= CHUNK_LINES || next.offset - base >= CHUNK_BYTES);
        events := events + found;
        c := next;
      }
      if !commits {
        spool := savedSpool;
        return Err(NotCommitted);
      }
      files := files[sourceId := c];
      return Ok(c.offset);
    }

    /** Where the record that starts at `off` ends, finished or not. */
    method RecordEnd(file: seq<byte>, off: nat) returns (end: nat)
      requires off < |file|
      ensures end == UpTo(file, off)
    {
      end := off;
      while end < |file| && file[end] != LF
        invariant off <= end <= |file| && LineEnd(file, off) == LineEnd(file, end)
      {
        end := end + 1;
      }
      if end < |file| {
        end := end + 1;
      }
    }

    /** The last reading of each conversation, record by record; None when a record is over the limit. */
    method ReadBaseline(a: Agent, file: seq<byte>) returns (r: Option<LastReadings>)
      ensures r == if Overlong(file, 0) then None else Some(BaselineReadings(a, file, 0, FreshContext(a.sourceId), map[]))
      ensures r.Some? ==> LatestOf(MarkedReadings(a, file, 0, FreshContext(a.sourceId)), r.value)
    {
      hide ParseRecord, Trim, Mentions, LineEnd;
      var off, context := 0, FreshContext(a.sourceId);
      var last: LastReadings := map[];
      while off < |file|
        invariant off <= |file| && Overlong(file, 0) == Overlong(file, off)
        invariant BaselineReadings(a, file, 0, FreshContext(a.sourceId), map[]) == BaselineReadings(a, file, off, context, last)
      {
        var end := RecordEnd(file, off);
        if end - off > LINE_LIMIT {
          return None;
        }
        var line := file[off..end];
        if Mentions(line, USAGE_MARK) {
          var (next, found) := ParseRecord(a, context, Trim(line), off);
          context := next;
          if found.Some? && found.value.kind.ExactUsage? {
            last := last[found.value.conversationId := (found.value, off)];
          }
        }
        off := end;
      }
      BaselineIsLatest(a, file);
      return Some(last);
    }

    /** First sight of a file as one transaction: from its start, or past it with its last readings as a baseline. A
        record over the limit, or a transaction that does not commit, leaves the file undiscovered. */
    method Discover(sourceId: string, file: seq<byte>, baseline: bool, commits: bool) returns (ok: bool)
      requires Valid() && sourceId !in files
      modifies this`files, this`spool
      ensures Valid()
      ensures ok <==> commits && !(baseline && Overlong(file, 0))
      ensures !ok ==> files == old(files) && spool == old(spool)
      ensures ok ==> files == old(files)[sourceId := Discovered(For(sourceId), if baseline then |file| else 0)]
      ensures ok && !baseline ==> spool == old(spool)
      ensures ok && baseline ==>
                var last := BaselineReadings(For(sourceId), file, 0, FreshContext(sourceId), map[]);
                && LatestOf(MarkedReadings(For(sourceId), file, 0, FreshContext(sourceId)), last)
                && BaselineQueued(For(sourceId), |file|, last, old(spool), spool)
    {
      hide LatestOf, MarkedReadings, BaselineReadings, Overlong, BaselineEvent;
      var a := For(sourceId);
      if !baseline {
        if commits {
          files := files[sourceId := Discovered(a, 0)];
        }
        return commits;
      }
      var readings := ReadBaseline(a, file);
      if readings.None? || !commits {
        return false;
      }
      files := files[sourceId := Discovered(a, |file|)];
      QueueBaseline(a, |file|, readings.value);
      return true;
    }

    method QueueBaseline(a: Agent, size: nat, last: LastReadings)
      requires Valid()
      modifies this`spool
      ensures Valid() && BaselineQueued(a, size, last, old(spool), spool)
    {
      hide BaselineEvent;
      var rest: set<string> := last.Keys;
      ghost var order: seq<string> := [];
      while rest != {}
        invariant Valid() && rest <= last.Keys && Lists(order, last.Keys - rest)
        invariant spool == Enqueue(old(spool), BaselineEvents(a, size, last, order))
        decreases rest
      {
        var c :| c in rest;
        ghost var longer := order + [c];
        assert BaselineEvents(a, size, last, longer) == BaselineEvents(a, size, last, order) + [BaselineEvent(a, size, c, last[c])];
        EnqueueJoins(old(spool), BaselineEvents(a, size, last, order), [BaselineEvent(a, size, c, last[c])]);
        Insert(BaselineEvent(a, size, c, last[c]));
        rest := rest - {c};
        order := longer;
      }
      assert last.Keys - rest == last.Keys;
    }

    /** Uploads batch after batch while they are acknowledged; only acknowledged rows leave the queue. */
    method FlushSpool(replies: seq<Reply>)
      requires Valid()
      modifies this`spool
      ensures Valid()
      ensures spool == old(spool).(rows := old(spool.rows)[Released(|old(spool.rows)|, replies)..])
    {
      var k := 0;
      ghost var gone: nat := 0;
      while k < |replies| && spool.rows != []
        invariant k <= |replies| && gone <= |old(spool.rows)|
        invariant Valid() && spool == old(spool).(rows := old(spool.rows)[gone..])
        invariant Released(|old(spool.rows)|, replies) == gone + Released(|spool.rows|, replies[k..])
      {
        var n := BatchSize(|spool.rows|);
        if !Acknowledges(replies[k], n) {
          return;
        }
        var batch := spool.rows[..n];
        DeleteRows(batch);
        gone := gone + n;
        assert replies[k..][1..] == replies[k + 1..];
        k := k + 1;
      }
    }

    method DeleteRows(batch: seq<SpoolRow>)
      requires Valid() && batch <= spool.rows
      modifies this`spool
      ensures Valid() && spool == old(spool).(rows := old(spool.rows)[|batch|..])
    {
      hide Numbered, Without;
      var i := 0;
      while i < |batch|
        invariant i <= |batch|
        invariant Valid() && spool == old(spool).(rows := old(spool.rows)[i..])
      {
        assert spool.rows[0] == batch[i] && spool.rows[1..] == old(spool.rows)[i + 1..];
        WithoutFirst(spool);
        spool := spool.(rows := Without(spool.rows, batch[i].number));
        i := i + 1;
      }
    }

    /** The scheduler's visit: skipped when the file still looks as it did when it was read to the end. */
    method Visit(sourceId: string, path: string, file: seq<byte>, size: nat, mtime: Instant, commits: bool)
      returns (skipped: bool)
      requires Valid() && sourceId in files
      modifies this
      ensures Valid()
      ensures skipped <==> sourceId in old(seen) && old(seen)[sourceId] == Stamp(path, size, mtime)
      ensures skipped ==> files == old(files) && spool == old(spool) && seen == old(seen)
      // Skipping loses nothing: there was no complete line to read in a file of that size.
      ensures skipped && |file| == size ==> Consume(For(sourceId), file, files[sourceId]) == (files[sourceId], [])
      ensures !skipped ==>
                var start := Reopened(old(files[sourceId]), size);
                var scan := ScanChunk(For(sourceId), file, start.offset, start, 0, true);
                if scan.Ok? && commits then
                  && files == old(files)[sourceId := scan.value.0] && spool == Enqueue(old(spool), scan.value.1)
                  && (sourceId in seen <==> size <= scan.value.0.offset)
                  && (sourceId in seen ==> seen[sourceId] == Stamp(path, size, mtime))
                else files == old(files) && spool == old(spool) && seen == old(seen)
    {
      var stamp := Stamp(path, size, mtime);
      if sourceId in seen && seen[sourceId] == stamp {
        return true;
      }
      var r := ScanOne(sourceId, file, size, true, commits);
      if r.Ok? {
        if size <= files[sourceId].offset {
          seen := seen[sourceId := stamp];
        } else {
          seen := seen - {sourceId};
        }
      }
      return false;
    }
  }
}
