/** The agent's resumable reading of one append-only source (agent.go, scanOneTx and readMeterLine). */
module Scanner {
  import opened Wrappers
  import opened Wire

  newtype byte = x: int | 0 <= x < 256

  const LF: byte := 10
  const CR: byte := 13

  const LINE_LIMIT := 64 * 1024 * 1024
  const CHUNK_LINES := 512
  const CHUNK_BYTES := 1024 * 1024

  // What the parser carries from line to line; it is checkpointed with the offset.
  datatype ParseContext = ParseContext(
    conversationId: string, parentId: string, turnId: string, responseId: string,
    model: string, effort: string, projectId: string, repoName: string, contextWindow: int)

  function FreshContext(sourceId: string): ParseContext {
    ParseContext(sourceId, "", "", "", "", "", "", "", 0)
  }

  // The kinds of event a record can give rise to.
  type Finding = k: Kind | k.ExactUsage? || k.LiveEstimate? || k.Activity? witness Activity

  // What the parser found in one record. `tail` is the part of the event id that depends on its kind.
  datatype Parsed = Parsed(
    kind: Finding, at: Instant, conversationId: string, parentId: string, turnId: string, responseId: string,
    contextWindow: int, counts: Tokens, cacheWriteVisible: bool, liveEstimate: int, runState: string, tail: seq<Part>)

  // The record parser: a function of the carried context, the record and its offset.
  type Parser = (ParseContext, seq<byte>, nat) -> (ParseContext, Option<Parsed>)

  // One row of the agent's files table.
  datatype Cursor = Cursor(offset: nat, generation: nat, lastTotal: int, initialised: bool, context: ParseContext, runState: string)

  datatype Agent = Agent(hostId: string, sourceId: string, parse: Parser)

  function Discovered(a: Agent, at: nat): Cursor {
    Cursor(at, 0, 0, false, FreshContext(a.sourceId), "")
  }

  /** The end of the line that starts at `from`, its terminator included. */
  function LineEnd(file: seq<byte>, from: nat): (r: Option<nat>)
    requires from <= |file|
    ensures r.Some? ==> from < r.value <= |file| && file[r.value - 1] == LF
    ensures r.Some? ==> forall k :: from <= k < r.value - 1 ==> file[k] != LF
    ensures r.None? ==> forall k :: from <= k < |file| ==> file[k] != LF
    decreases |file| - from
  {
    if from == |file| then None
    else if file[from] == LF then Some(from + 1)
    else LineEnd(file, from + 1)
  }

  function Trim(line: seq<byte>): seq<byte> {
    var a := if line != [] && line[|line| - 1] == LF then line[..|line| - 1] else line;
    if a != [] && a[|a| - 1] == CR then a[..|a| - 1] else a
  }

  /** An empty record is never valid JSON, so the parser is not consulted about it. */
  function ParseRecord(a: Agent, c: ParseContext, record: seq<byte>, offset: nat): (ParseContext, Option<Parsed>) {
    if record == [] then (c, None) else a.parse(c, record, offset)
  }

  /** A total below the last one means the counter restarted: the source enters its next generation. */
  predicate Restarts(c: Cursor, p: Parsed) {
    p.kind.ExactUsage? && c.initialised && p.counts.total < c.lastTotal
  }

  function KindName(k: Kind): string {
    match k
    case Baseline => "baseline"
    case ExactUsage => "exact_usage"
    case LiveEstimate => "live_estimate"
    case Activity => "activity"
    case Runtime => "runtime"
    case Unrecognised(name) => name
  }

  function EventFor(a: Agent, p: Parsed, offset: nat, generation: nat): UsageEvent {
    var id := Digest([Text(a.hostId), Text(a.sourceId), Number(offset), Text(KindName(p.kind)), Number(p.at)] + p.tail);
    UsageEvent(Digest([Nested(id), Number(generation)]), a.hostId, a.sourceId, offset, generation, p.kind, p.at,
               p.conversationId, p.parentId, p.turnId, p.responseId, p.contextWindow, p.counts, p.cacheWriteVisible,
               p.liveEstimate, p.runState)
  }

  function Notice(c: Cursor, p: Parsed): Cursor {
    var c1 := if p.kind.Activity? || p.kind.Runtime? || p.kind.LiveEstimate?
              then c.(runState := if p.runState == "idle" then "idle" else "running") else c;
    if p.kind.ExactUsage?
    then c1.(generation := if Restarts(c, p) then c.generation + 1 else c.generation,
             lastTotal := p.counts.total, initialised := true)
    else c1
  }

  /** One complete line, terminator included, read at the cursor. */
  function StepLine(a: Agent, c: Cursor, line: seq<byte>): (Cursor, seq<UsageEvent>) {
    var (context, found) := ParseRecord(a, c.context, Trim(line), c.offset);
    var moved := c.(offset := c.offset + |line|, context := context);
    match found
    case None => (moved, [])
    case Some(p) =>
      var next := Notice(moved, p);
      (next, [EventFor(a, p, c.offset, next.generation)])
  }

  /** The complete line at the cursor, if there is one. */
  function NextLine(a: Agent, file: seq<byte>, c: Cursor): (r: Option<(Cursor, seq<UsageEvent>)>)
    ensures r.Some? ==> c.offset < r.value.0.offset <= |file|
  {
    if |file| < c.offset then None
    else
      match LineEnd(file, c.offset)
      case None => None
      case Some(end) => Some(StepLine(a, c, file[c.offset..end]))
  }

  /** Reading every complete line of `file` from the cursor on. */
  function Consume(a: Agent, file: seq<byte>, c: Cursor): (r: (Cursor, seq<UsageEvent>))
    ensures c.offset <= r.0.offset
    ensures c.offset <= |file| ==> r.0.offset <= |file|
    decreases |file| - c.offset
  {
    match NextLine(a, file, c)
    case None => (c, [])
    case Some(step) =>
      var rest := Consume(a, file, step.0);
      (rest.0, step.1 + rest.1)
  }

  /* ---- Cutting a file anywhere ---- */

  lemma {:induction false} LineEndInPrefix(file: seq<byte>, cut: nat, from: nat)
    requires from <= cut <= |file|
    ensures var whole, part := LineEnd(file, from), LineEnd(file[..cut], from);
            part == if whole.Some? && whole.value <= cut then whole else None
    decreases cut - from
  {
    if from < cut {
      LineEndInPrefix(file, cut, from + 1);
    } else {
      var whole := LineEnd(file, from);
    }
  }

  lemma NextLineInPrefix(a: Agent, file: seq<byte>, cut: nat, c: Cursor)
    requires c.offset <= cut <= |file|
    ensures var whole := NextLine(a, file, c);
            NextLine(a, file[..cut], c) == if whole.Some? && whole.value.0.offset <= cut then whole else None
  {
    LineEndInPrefix(file, cut, c.offset);
    var end := LineEnd(file[..cut], c.offset);
    if end.Some? {
      assert file[..cut][c.offset..end.value] == file[c.offset..end.value];
    } else if LineEnd(file, c.offset).Some? {
      LineMoves(a, c, file[c.offset..LineEnd(file, c.offset).value]);
    }
  }

  lemma LineMoves(a: Agent, c: Cursor, line: seq<byte>)
    ensures StepLine(a, c, line).0.offset == c.offset + |line|
  {
  }

  /** Reading up to any cut — in the middle of a line or not — and then the whole file is reading the file. */
  lemma {:induction false} ConsumeResumes(a: Agent, file: seq<byte>, cut: nat, c: Cursor)
    requires c.offset <= cut <= |file|
    ensures var first := Consume(a, file[..cut], c);
            var second := Consume(a, file, first.0);
            Consume(a, file, c) == (second.0, first.1 + second.1)
    decreases cut - c.offset
  {
    hide NextLine;
    NextLineInPrefix(a, file, cut, c);
    var step := NextLine(a, file[..cut], c);
    if step.Some? {
      ConsumeResumes(a, file, cut, step.value.0);
      var first := Consume(a, file[..cut], step.value.0);
      var second := Consume(a, file, first.0);
      assert step.value.1 + (first.1 + second.1) == (step.value.1 + first.1) + second.1;
    } else {
      assert [] + Consume(a, file, c).1 == Consume(a, file, c).1;
    }
  }

  /** A partial last line moves nothing and emits nothing. */
  lemma PartialLineWaits(a: Agent, file: seq<byte>, c: Cursor)
    requires c.offset <= |file|
    requires forall k :: c.offset <= k < |file| ==> file[k] != LF
    ensures Consume(a, file, c) == (c, [])
  {
  }

  /* ---- Schedules ---- */

  // One attempt: how much of the file it got to read before its chunk ended, and whether it committed.
  datatype Attempt = Attempt(seen: nat, commits: bool)

  function RunSchedule(a: Agent, file: seq<byte>, c: Cursor, schedule: seq<Attempt>): (Cursor, seq<UsageEvent>)
    requires forall i :: 0 <= i < |schedule| ==> schedule[i].seen <= |file|
  {
    if schedule == [] then (c, [])
    else
      var n := |schedule| - 1;
      var (before, events) := RunSchedule(a, file, c, schedule[..n]);
      if schedule[n].commits then
        var (after, more) := Consume(a, file[..schedule[n].seen], before);
        (after, events + more)
      else (before, events)
  }

  /** Whatever the attempts did, finishing the file afterwards gives what one scan of it would have given. */
  lemma {:induction false} ScheduleIndependence(a: Agent, file: seq<byte>, c: Cursor, schedule: seq<Attempt>)
    requires c.offset <= |file|
    requires forall i :: 0 <= i < |schedule| ==> schedule[i].seen <= |file|
    ensures var done := RunSchedule(a, file, c, schedule);
            var rest := Consume(a, file, done.0);
            && done.0.offset <= |file|
            && Consume(a, file, c) == (rest.0, done.1 + rest.1)
  {
    RunIsPrefixScan(a, file, c, schedule);
    ConsumeResumes(a, file, RunSchedule(a, file, c, schedule).0.offset, c);
  }

  /** Two schedules that have got equally far have emitted the same events and hold the same checkpoint. */
  lemma {:induction false} SameOffsetSameState(a: Agent, file: seq<byte>, c: Cursor, one: seq<Attempt>, two: seq<Attempt>)
    requires c.offset <= |file|
    requires forall i :: 0 <= i < |one| ==> one[i].seen <= |file|
    requires forall i :: 0 <= i < |two| ==> two[i].seen <= |file|
    requires RunSchedule(a, file, c, one).0.offset == RunSchedule(a, file, c, two).0.offset
    ensures RunSchedule(a, file, c, one) == RunSchedule(a, file, c, two)
  {
    RunIsPrefixScan(a, file, c, one);
    RunIsPrefixScan(a, file, c, two);
  }

  /** Wherever a schedule stopped, it stands where a single scan of the file up to there stands. */
  lemma {:induction false} RunIsPrefixScan(a: Agent, file: seq<byte>, c: Cursor, schedule: seq<Attempt>)
    requires c.offset <= |file|
    requires forall i :: 0 <= i < |schedule| ==> schedule[i].seen <= |file|
    ensures c.offset <= RunSchedule(a, file, c, schedule).0.offset <= |file|
    ensures RunSchedule(a, file, c, schedule) == Consume(a, file[..RunSchedule(a, file, c, schedule).0.offset], c)
  {
    hide StepLine, Trim;
    var done := RunSchedule(a, file, c, schedule);
    if schedule == [] {
      NothingToRead(a, file[..c.offset], c);
    } else {
      var n := |schedule| - 1;
      RunIsPrefixScan(a, file, c, schedule[..n]);
      var before := RunSchedule(a, file, c, schedule[..n]);
      if schedule[n].commits && before.0.offset <= schedule[n].seen {
        ScanStopsAtOffset(a, file[..schedule[n].seen], before.0);
        assert file[..schedule[n].seen][..done.0.offset] == file[..done.0.offset];
        ConsumeResumes(a, file[..done.0.offset], before.0.offset, c);
        assert file[..done.0.offset][..before.0.offset] == file[..before.0.offset];
      } else {
        assert before.1 + [] == before.1;
      }
    }
  }

  lemma NothingToRead(a: Agent, file: seq<byte>, c: Cursor)
    requires |file| <= c.offset
    ensures NextLine(a, file, c) == None
  {
  }

  /** A scan depends on nothing beyond the offset it reaches. */
  lemma {:induction false} ScanStopsAtOffset(a: Agent, file: seq<byte>, c: Cursor)
    requires c.offset <= |file|
    ensures var reached := Consume(a, file, c).0.offset;
            Consume(a, file[..reached], c) == Consume(a, file, c)
    decreases |file| - c.offset
  {
    var reached := Consume(a, file, c).0.offset;
    NextLineInPrefix(a, file, reached, c);
    var step := NextLine(a, file, c);
    if step.Some? {
      ScanStopsAtOffset(a, file, step.value.0);
    }
  }

  /* ---- What the emitted events look like ---- */

  predicate Before(g1: int, o1: int, g2: int, o2: int) {
    g1 < g2 || (g1 == g2 && o1 < o2)
  }

  /** Strictly increasing (generation, offset), between the two cursors. */
  ghost predicate Climbing(events: seq<UsageEvent>, from: Cursor, to: Cursor) {
    && (forall i :: 0 <= i < |events| ==>
          && from.generation <= events[i].sourceEpoch && (events[i].sourceEpoch == from.generation ==> from.offset <= events[i].byteOffset)
          && Before(events[i].sourceEpoch, events[i].byteOffset, to.generation, to.offset))
    && (forall i, j :: 0 <= i < j < |events| ==>
          Before(events[i].sourceEpoch, events[i].byteOffset, events[j].sourceEpoch, events[j].byteOffset))
    && from.generation <= to.generation && (from.generation == to.generation ==> from.offset <= to.offset)
  }

  lemma ClimbingJoins(a: seq<UsageEvent>, b: seq<UsageEvent>, from: Cursor, mid: Cursor, to: Cursor)
    requires Climbing(a, from, mid) && Climbing(b, mid, to)
    ensures Climbing(a + b, from, to)
  {
  }

  lemma NextClimbs(a: Agent, file: seq<byte>, c: Cursor)
    ensures Climbing([], c, c)
    ensures var step := NextLine(a, file, c); step.Some? ==> Climbing(step.value.1, c, step.value.0)
  {
    hide LineEnd, Trim;
  }

  lemma {:induction false} ScanClimbs(a: Agent, file: seq<byte>, c: Cursor)
    ensures Climbing(Consume(a, file, c).1, c, Consume(a, file, c).0)
    decreases |file| - c.offset
  {
    hide NextLine, Climbing;
    var step := NextLine(a, file, c);
    NextClimbs(a, file, c);
    if step.Some? {
      ScanClimbs(a, file, step.value.0);
      ClimbingJoins(step.value.1, Consume(a, file, step.value.0).1, c, step.value.0, Consume(a, file, step.value.0).0);
    }
  }

  /** The cursor a scan starts from when the file has become shorter than the checkpoint. */
  function Reopened(c: Cursor, size: nat): Cursor {
    if size < c.offset then c.(offset := 0, generation := c.generation + 1, lastTotal := 0, initialised := false) else c
  }

  /** A file that is shorter than the checkpoint is read again from its start, under the next generation and with no total to
      fall below; what the parser carries, and the state of the run, are kept. */
  lemma TruncatedStartsOver(c: Cursor, size: nat, p: Parsed)
    ensures var r := Reopened(c, size);
            if size < c.offset
            then r.offset == 0 && r.generation == c.generation + 1 && !Restarts(r, p) && r.context == c.context && r.runState == c.runState
            else r == c
  {
  }

  function ScanAll(a: Agent, c: Cursor, files: seq<seq<byte>>): (Cursor, seq<UsageEvent>) {
    if files == [] then (c, [])
    else
      var n := |files| - 1;
      var (before, events) := ScanAll(a, c, files[..n]);
      var (after, more) := Consume(a, files[n], Reopened(before, |files[n]|));
      (after, events + more)
  }

  /** Over any contents the file ever had — growing, truncated, replaced — readings of a source are emitted with
      strictly increasing (generation, offset), so no two of them share an event id. */
  lemma {:induction false} EmissionsClimb(a: Agent, c: Cursor, files: seq<seq<byte>>)
    ensures Climbing(ScanAll(a, c, files).1, c, ScanAll(a, c, files).0)
  {
    if files != [] {
      var n := |files| - 1;
      EmissionsClimb(a, c, files[..n]);
      var before := ScanAll(a, c, files[..n]);
      var resumed := Reopened(before.0, |files[n]|);
      ScanClimbs(a, files[n], resumed);
      ClimbingJoins([], Consume(a, files[n], resumed).1, before.0, resumed, Consume(a, files[n], resumed).0);
      assert [] + Consume(a, files[n], resumed).1 == Consume(a, files[n], resumed).1;
      ClimbingJoins(before.1, Consume(a, files[n], resumed).1, c, before.0, Consume(a, files[n], resumed).0);
    }
  }

  /* ---- A scan is the parser run over the lines ---- */

  /** The complete lines from an offset on, each with where it starts. */
  function Lines(file: seq<byte>, from: nat): seq<(nat, seq<byte>)>
    requires from <= |file|
    decreases |file| - from
  {
    match LineEnd(file, from)
    case None => []
    case Some(end) => [(from, file[from..end])] + Lines(file, end)
  }

  /** What the parser finds in the lines, one after another, each under the context the one before it left; and the context
      it ends with. */
  function ParseLines(a: Agent, c: ParseContext, lines: seq<(nat, seq<byte>)>): (seq<(nat, Parsed)>, ParseContext)
    decreases |lines|
  {
    if lines == [] then ([], c)
    else
      var record := Trim(lines[0].1);
      if record == [] then ParseLines(a, c, lines[1..])
      else
        var (next, found) := a.parse(c, record, lines[0].0);
        var (rest, last) := ParseLines(a, next, lines[1..]);
        ((if found.Some? then [(lines[0].0, found.value)] else []) + rest, last)
  }

  /** The event says what was found, and where. */
  predicate Reports(a: Agent, e: UsageEvent, at: nat, p: Parsed) {
    && e.hostId == a.hostId && e.sourceId == a.sourceId && e.byteOffset == at && e.kind == p.kind && e.at == p.at
    && e.conversationId == p.conversationId && e.parentId == p.parentId && e.turnId == p.turnId && e.responseId == p.responseId
    && e.contextWindow == p.contextWindow && e.counts == p.counts && e.cacheWriteVisible == p.cacheWriteVisible
    && e.liveEstimate == p.liveEstimate && e.runState == p.runState
  }

  /** The state of the run that the findings leave: readings do not speak of it. */
  function RunAfter(state: string, found: seq<(nat, Parsed)>): string
    decreases |found|
  {
    if found == [] then state
    else
      var p := found[0].1;
      RunAfter(if p.kind.ExactUsage? then state else if p.runState == "idle" then "idle" else "running", found[1..])
  }

  ghost predicate TellsOf(a: Agent, events: seq<UsageEvent>, found: seq<(nat, Parsed)>) {
    |events| == |found| && forall i :: 0 <= i < |events| ==> Reports(a, events[i], found[i].0, found[i].1)
  }

  /** A scan emits one event for each finding, in order, with everything that was found; it leaves the context the parser
      left, and the state of the run the findings imply. */
  lemma {:induction false} ScanReports(a: Agent, file: seq<byte>, c: Cursor)
    requires c.offset <= |file|
    ensures var (found, context) := ParseLines(a, c.context, Lines(file, c.offset));
            var (last, events) := Consume(a, file, c);
            TellsOf(a, events, found) && last.context == context && last.runState == RunAfter(c.runState, found)
    decreases |file| - c.offset
  {
    hide LineEnd, Trim, StepLine, TellsOf, RunAfter;
    var end := LineEnd(file, c.offset);
    if end.Some? {
      var line := file[c.offset..end.value];
      var step := StepLine(a, c, line);
      OneLine(a, c, line);
      ScanReports(a, file, step.0);
      assert Lines(file, c.offset)[1..] == Lines(file, end.value);
      var found := ParseLines(a, step.0.context, Lines(file, end.value)).0;
      FirstTells(a, c, line, Consume(a, file, step.0).1, found);
      assert [] + found == found;
    } else {
      NothingTold(a, c.runState);
    }
  }

  lemma NothingTold(a: Agent, state: string)
    ensures TellsOf(a, [], []) && RunAfter(state, []) == state
  {
  }

  lemma OneLine(a: Agent, c: Cursor, line: seq<byte>)
    ensures StepLine(a, c, line).0.offset == c.offset + |line|
    ensures StepLine(a, c, line).0.context == if Trim(line) == [] then c.context else a.parse(c.context, Trim(line), c.offset).0
  {
    hide Trim;
  }

  lemma FirstTells(a: Agent, c: Cursor, line: seq<byte>, events: seq<UsageEvent>, found: seq<(nat, Parsed)>)
    requires TellsOf(a, events, found)
    ensures var first := if Trim(line) == [] || a.parse(c.context, Trim(line), c.offset).1.None? then []
                         else [(c.offset, a.parse(c.context, Trim(line), c.offset).1.value)];
            var (next, told) := StepLine(a, c, line);
            && TellsOf(a, told + events, first + found)
            && RunAfter(c.runState, first + found) == RunAfter(next.runState, found)
  {
    hide Trim;
    assert [] + events == events && [] + found == found;
    if Trim(line) != [] {
      var (_, p) := a.parse(c.context, Trim(line), c.offset);
      if p.Some? {
        assert ([(c.offset, p.value)] + found)[1..] == found;
      }
    }
  }

  /** A record is its line without the line feed, and without a carriage return before that. */
  lemma TrimExactly(record: seq<byte>)
    ensures Trim(record + [CR, LF]) == record
    ensures record == [] || record[|record| - 1] != CR ==> Trim(record + [LF]) == record
    ensures record == [] || record[|record| - 1] !in {CR, LF} ==> Trim(record) == record
  {
    assert record + [CR, LF] == record + [CR] + [LF];
    assert (record + [CR] + [LF])[..|record| + 1] == record + [CR] && (record + [CR])[..|record|] == record;
    assert (record + [LF])[..|record|] == record;
  }
}
