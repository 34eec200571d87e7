/** A file that was there before monitoring: which of its readings the baseline is, and what the file is charged from then on. */
module TakeOver {
  import opened Wrappers
  import opened Wire
  import opened Ledger
  import opened Accounting
  import opened Exactness
  import opened Scanner
  import opened Collector
  import opened Pipeline
  import opened EndToEnd

  /** The file's marked exact readings, as taking it over reads them. */
  function Marked(a: Agent, file: seq<byte>): seq<(Parsed, nat)> { MarkedReadings(a, file, 0, FreshContext(a.sourceId)) }

  /** The file's baseline is the largest of its conversations' latest totals. */
  lemma BaselineIsLargestLatest(a: Agent, file: seq<byte>)
    ensures 0 <= FileBaseline(a, file)
    ensures forall c, r :: IsLatest(Marked(a, file), c, r) ==> r.0.counts.total <= FileBaseline(a, file)
    ensures FileBaseline(a, file) == 0 || exists c, r :: IsLatest(Marked(a, file), c, r) && r.0.counts.total == FileBaseline(a, file)
  {
    hide Largest, BaselineReadings, MarkedReadings;
    var rs, last := Marked(a, file), BaselineReadings(a, file, 0, FreshContext(a.sourceId), map[]);
    BaselineIsLatest(a, file);
    MarkedInOrder(a, file, 0, FreshContext(a.sourceId));
    LargestBounds(last);
    forall c, r | IsLatest(rs, c, r) ensures c in last && last[c] == r {
      OnlyLatest(rs, c, r);
      OnlyLatest(rs, c, last[c]);
      var i :| 0 <= i < |rs| && rs[i] == r;
      assert NamedIn(rs, c);
    }
    if FileBaseline(a, file) != 0 {
      var c :| c in last && last[c].0.counts.total == Largest(last);
      assert IsLatest(rs, c, last[c]);
    }
  }

  lemma OnlyLatest(rs: seq<(Parsed, nat)>, c: string, r: (Parsed, nat))
    requires Placed(rs, 0) && IsLatest(rs, c, r)
    ensures forall q :: IsLatest(rs, c, q) ==> q == r
  {
    forall q | IsLatest(rs, c, q) ensures q == r {
      var i, j :| 0 <= i < |rs| && 0 <= j < |rs| && rs[i] == q && rs[j] == r;
      assert q.1 == r.1;
    }
  }

  /** A counter that is never negative and never falls. */
  ghost predicate CountsUp(ts: seq<int>) {
    && (forall i :: 0 <= i < |ts| ==> 0 <= ts[i])
    && (forall i, j :: 0 <= i < j < |ts| ==> ts[i] <= ts[j])
  }

  function MarkedTotals(rs: seq<(Parsed, nat)>): seq<int> {
    seq(|rs|, i requires 0 <= i < |rs| => rs[i].0.counts.total)
  }

  /** Of a counter that does not fall the baseline is the last value. */
  lemma BaselineIsLast(a: Agent, file: seq<byte>)
    requires CountsUp(MarkedTotals(Marked(a, file))) && Marked(a, file) != []
    ensures var rs := Marked(a, file); FileBaseline(a, file) == rs[|rs| - 1].0.counts.total
  {
    hide MarkedReadings, FileBaseline;
    var rs, ts := Marked(a, file), MarkedTotals(Marked(a, file));
    var n := |rs| - 1;
    MarkedInOrder(a, file, 0, FreshContext(a.sourceId));
    BaselineIsLargestLatest(a, file);
    assert IsLatest(rs, rs[n].0.conversationId, rs[n]);
    assert ts[n] == rs[n].0.counts.total;
    if FileBaseline(a, file) != 0 {
      var c, r :| IsLatest(rs, c, r) && r.0.counts.total == FileBaseline(a, file);
      var i :| 0 <= i < |rs| && rs[i] == r;
      assert ts[i] == r.0.counts.total;
    }
  }

  /* ---- Against what a scan would have read ---- */

  /** The counts the parser reads in a record, if it finds an exact reading there. */
  function CountsIn(parse: Parser, c: ParseContext, record: seq<byte>, offset: nat): Option<Tokens> {
    var found := parse(c, record, offset).1;
    if found.Some? && found.value.kind.ExactUsage? then Some(found.value.counts) else None
  }

  /** A parser that finds its counts in the record, not in what it carries, and only where the usage mark is. */
  ghost predicate ReadsRecords(parse: Parser) {
    && (forall c, d, record, o, q :: CountsIn(parse, c, record, o) == CountsIn(parse, d, record, q))
    && (forall c, record, o :: CountsIn(parse, c, record, o).Some? ==> Mentions(record, USAGE_MARK))
  }

  predicate CompleteLines(file: seq<byte>) { file == [] || file[|file| - 1] == LF }

  lemma {:induction false} MentionsMore(part: seq<byte>, more: seq<byte>, mark: seq<byte>)
    requires Mentions(part, mark)
    ensures Mentions(part + more, mark)
    decreases |part|
  {
    if !(mark <= part) {
      MentionsMore(part[1..], more, mark);
      assert (part + more)[1..] == part[1..] + more;
    }
  }

  lemma TrimCuts(line: seq<byte>)
    ensures Trim(line) <= line
  {
  }

  lemma TotalsJoin(a: seq<Reading>, b: seq<Reading>)
    ensures Totals(a + b) == Totals(a) + Totals(b)
  {
  }

  /** What one complete line says of the counter. */
  function LineTotals(a: Agent, line: seq<byte>): seq<int> {
    if Trim(line) == [] then []
    else
      match CountsIn(a.parse, FreshContext(a.sourceId), Trim(line), 0)
      case Some(counts) => [counts.total]
      case None => []
  }

  lemma LineReads(a: Agent, c: Cursor, line: seq<byte>)
    requires ReadsRecords(a.parse)
    ensures Totals(RawReadings(StepLine(a, c, line).1, (a.hostId, a.sourceId))) == LineTotals(a, line)
  {
    var s, events := (a.hostId, a.sourceId), StepLine(a, c, line).1;
    var blank := FreshContext(a.sourceId);
    assert CountsIn(a.parse, c.context, Trim(line), c.offset) == CountsIn(a.parse, blank, Trim(line), 0);
    if events != [] {
      SingleReading(events[0], s);
    }
  }

  lemma LineMarks(a: Agent, c: ParseContext, line: seq<byte>, offset: nat)
    requires ReadsRecords(a.parse)
    ensures var (_, found) := ParseRecord(a, c, Trim(line), offset);
            LineTotals(a, line) ==
            if Mentions(line, USAGE_MARK) && found.Some? && found.value.kind.ExactUsage? then [found.value.counts.total] else []
  {
    hide Mentions, Trim;
    var blank := FreshContext(a.sourceId);
    assert CountsIn(a.parse, c, Trim(line), offset) == CountsIn(a.parse, blank, Trim(line), 0);
    if CountsIn(a.parse, blank, Trim(line), 0).Some? {
      TrimCuts(line);
      assert line == Trim(line) + line[|Trim(line)|..];
      MentionsMore(Trim(line), line[|Trim(line)|..], USAGE_MARK);
    }
  }

  /** The counter as the complete lines from `from` on show it. */
  function Shown(a: Agent, file: seq<byte>, from: nat): seq<int>
    requires from <= |file|
    decreases |file| - from
  {
    match LineEnd(file, from)
    case None => []
    case Some(end) => LineTotals(a, file[from..end]) + Shown(a, file, end)
  }

  lemma {:induction false} ScanShows(a: Agent, file: seq<byte>, c: Cursor)
    requires ReadsRecords(a.parse) && c.offset <= |file|
    ensures Totals(RawReadings(Consume(a, file, c).1, (a.hostId, a.sourceId))) == Shown(a, file, c.offset)
    decreases |file| - c.offset
  {
    hide ReadsRecords, RawReadings, StepLine, LineTotals;
    var s, step := (a.hostId, a.sourceId), NextLine(a, file, c);
    if step.Some? {
      var line := file[c.offset..LineEnd(file, c.offset).value];
      LineReads(a, c, line);
      OneStep(a, c, line);
      ScanShows(a, file, step.value.0);
      ScanReadings(a, file, c, s);
      TotalsJoin(RawReadings(step.value.1, s), RawReadings(Consume(a, file, step.value.0).1, s));
    } else {
      NothingRead(s);
    }
  }

  lemma NothingRead(s: Source)
    ensures Totals(RawReadings([], s)) == []
  {
  }

  lemma {:induction false} TakeOverShows(a: Agent, file: seq<byte>, from: nat, context: ParseContext)
    requires ReadsRecords(a.parse) && CompleteLines(file) && from <= |file|
    ensures MarkedTotals(MarkedReadings(a, file, from, context)) == Shown(a, file, from)
    decreases |file| - from
  {
    hide ReadsRecords, LineTotals, Mentions, Trim, ParseRecord, MarkedReadings;
    if from < |file| {
      var end := UpTo(file, from);
      assert LineEnd(file, from) == Some(end);
      var next := MarkedSplits(a, file, from, context);
      TakeOverShows(a, file, end, next);
    } else {
      NothingMarked(a, file, context);
    }
  }

  lemma NothingMarked(a: Agent, file: seq<byte>, context: ParseContext)
    ensures MarkedTotals(MarkedReadings(a, file, |file|, context)) == []
  {
  }

  /** One line of the walk over the marked records, and the context it leaves for the rest. */
  lemma MarkedSplits(a: Agent, file: seq<byte>, from: nat, context: ParseContext) returns (next: ParseContext)
    requires ReadsRecords(a.parse) && from < |file|
    ensures var end := UpTo(file, from);
            MarkedTotals(MarkedReadings(a, file, from, context))
            == LineTotals(a, file[from..end]) + MarkedTotals(MarkedReadings(a, file, end, next))
  {
    hide ReadsRecords, LineTotals, Mentions, Trim, ParseRecord, LineEnd;
    var end := UpTo(file, from);
    var line := file[from..end];
    var (after, found) := ParseRecord(a, context, Trim(line), from);
    next := if Mentions(line, USAGE_MARK) then after else context;
    LineMarks(a, context, line, from);
    var rest := MarkedReadings(a, file, end, next);
    var first := if Mentions(line, USAGE_MARK) && found.Some? && found.value.kind.ExactUsage? then [(found.value, from)] else [];
    OneLineMarked(a, file, from, context);
    hide *;
    TotalsSplit(first, rest);
  }

  lemma OneLineMarked(a: Agent, file: seq<byte>, from: nat, context: ParseContext)
    requires from < |file|
    ensures var end := UpTo(file, from);
            var line := file[from..end];
            var (after, found) := ParseRecord(a, context, Trim(line), from);
            MarkedReadings(a, file, from, context)
            == (if Mentions(line, USAGE_MARK) && found.Some? && found.value.kind.ExactUsage? then [(found.value, from)] else [])
             + MarkedReadings(a, file, end, if Mentions(line, USAGE_MARK) then after else context)
  {
    hide LineEnd, Mentions, Trim, ParseRecord;
  }

  lemma TotalsSplit(a: seq<(Parsed, nat)>, b: seq<(Parsed, nat)>)
    ensures MarkedTotals(a + b) == MarkedTotals(a) + MarkedTotals(b)
    ensures a == [] ==> MarkedTotals(a) == []
    ensures |a| == 1 ==> MarkedTotals(a) == [a[0].0.counts.total]
  {
  }

  /** Taking a file over reads the same counter as scanning it would have. */
  lemma TakenOverAsScanned(a: Agent, file: seq<byte>)
    requires ReadsRecords(a.parse) && CompleteLines(file)
    ensures MarkedTotals(Marked(a, file)) == Totals(FileReadings(a, file, 0))
  {
    hide ReadsRecords;
    TakeOverShows(a, file, 0, FreshContext(a.sourceId));
    ScanShows(a, file, Discovered(a, 0));
  }

  lemma {:induction false} ShownSplits(a: Agent, file: seq<byte>, cut: nat, from: nat)
    requires from <= cut <= |file| && CompleteLines(file[..cut])
    ensures Shown(a, file, from) == Shown(a, file[..cut], from) + Shown(a, file, cut)
    decreases cut - from
  {
    hide LineTotals;
    LineEndInPrefix(file, cut, from);
    if from < cut {
      assert LineEnd(file[..cut], from).Some?;
      var end := LineEnd(file[..cut], from).value;
      assert file[..cut][from..end] == file[from..end];
      ShownSplits(a, file, cut, end);
      assert LineTotals(a, file[from..end]) + (Shown(a, file[..cut], end) + Shown(a, file, cut))
          == (LineTotals(a, file[from..end]) + Shown(a, file[..cut], end)) + Shown(a, file, cut);
    } else {
      assert [] + Shown(a, file, cut) == Shown(a, file, cut);
    }
  }

  /* ---- What is charged ---- */

  lemma {:induction false} RisesAddUp(ts: seq<int>)
    requires CountsUp(ts)
    ensures PositiveIncrements(ts) == if ts == [] then 0 else ts[|ts| - 1]
  {
    if |ts| > 1 {
      RisesAddUp(ts[..|ts| - 1]);
    }
  }

  lemma CountsUpParts(a: seq<int>, b: seq<int>)
    requires CountsUp(a + b)
    ensures CountsUp(a) && CountsUp(b) && (a != [] && b != [] ==> a[|a| - 1] <= b[0])
  {
    forall i | 0 <= i < |a| ensures a[i] == (a + b)[i] {}
    forall i | 0 <= i < |b| ensures b[i] == (a + b)[|a| + i] {}
    assert a != [] && b != [] ==> (a + b)[|a| - 1] <= (a + b)[|a|];
  }

  /** The counter of the whole file, as one scan of it would read it. */
  function WholeCounter(a: Agent, file: seq<byte>): seq<int> { Totals(FileReadings(a, file, 0)) }

  lemma CounterParts(a: Agent, file: seq<byte>, origin: nat)
    requires ReadsRecords(a.parse) && origin <= |file| && CompleteLines(file[..origin])
    ensures WholeCounter(a, file) == WholeCounter(a, file[..origin]) + Totals(FileReadings(a, file, origin))
  {
    hide ReadsRecords, Shown;
    ScanShows(a, file, Discovered(a, 0));
    ScanShows(a, file[..origin], Discovered(a, 0));
    ScanShows(a, file, Discovered(a, origin));
    ShownSplits(a, file, origin, 0);
  }

  lemma TakesSomethingOver(a: Agent, file: seq<byte>)
    requires Marked(a, file) != []
    ensures BaselineReadings(a, file, 0, FreshContext(a.sourceId), map[]) != map[]
  {
    BaselineIsLatest(a, file);
    hide MarkedReadings, BaselineReadings;
    assert NamedIn(Marked(a, file), Marked(a, file)[0].0.conversationId);
  }

  lemma OriginInFile(u: Setup, steps: seq<Step>, source: string)
    requires AppendOnly(u, steps, source) && CaughtUp(u, Run(u, steps), source)
    ensures EndToEnd.Origin(u, steps, source) <= |Run(u, steps).files[source]|
  {
    hide Run, AppendOnly, EndToEnd.Origin, Consume, RawReadings, FileReadings;
    MirrorsAlways(u, steps, source);
  }

  /** What the counter says since the file was taken over, in terms of the baseline. */
  lemma SinceBaseline(a: Agent, file: seq<byte>, origin: nat)
    requires ReadsRecords(a.parse) && origin <= |file| && CompleteLines(file[..origin])
    requires WholeCounter(a, file[..origin]) != [] && CountsUp(WholeCounter(a, file))
    ensures var whole, before, since := WholeCounter(a, file), WholeCounter(a, file[..origin]), Totals(FileReadings(a, file, origin));
            var baseline := FileBaseline(a, file[..origin]);
            && before <= whole && Marked(a, file[..origin]) != []
            && (since != [] ==> baseline <= since[0])
            && whole[|whole| - 1] - before[|before| - 1] == if since == [] then 0 else PositiveIncrements(since) - baseline
  {
    hide ReadsRecords, FileReadings, FileBaseline, Marked, PositiveIncrements;
    CounterParts(a, file, origin);
    CountsUpParts(WholeCounter(a, file[..origin]), Totals(FileReadings(a, file, origin)));
    RisesAddUp(Totals(FileReadings(a, file, origin)));
    TakenOverAsScanned(a, file[..origin]);
    BaselineIsLast(a, file[..origin]);
  }

  /** An append-only file that was taken over while it held complete lines, whose counter never falls and whose dedup keys do
      not recur, is charged, once everything is scanned and uploaded, what its counter says at the end less what it said
      last when the file was taken over: nothing from before, everything since. */
  lemma ChargedSinceTakeOver(u: Setup, steps: seq<Step>, source: string)
    requires AppendOnly(u, steps, source) && CaughtUp(u, Run(u, steps), source) && ReadsRecords(u.parse)
    requires var s, a := Run(u, steps), AgentFor(u, source);
             var before := First(s.files[source], EndToEnd.Origin(u, steps, source));
             && CompleteLines(before) && WholeCounter(a, before) != [] && CountsUp(WholeCounter(a, s.files[source]))
             && KeysStayHome(s.log, (u.hostId, source))
    ensures var s, a := Run(u, steps), AgentFor(u, source);
            var whole, before := WholeCounter(a, s.files[source]), WholeCounter(a, First(s.files[source], EndToEnd.Origin(u, steps, source)));
            && before <= whole
            && SourceTotal(s.server.usage, (u.hostId, source)) == whole[|whole| - 1] - before[|before| - 1]
  {
    hide Run, AppendOnly, EndToEnd.Origin, CaughtUp, ReadsRecords, KeysStayHome, FileReadings, FileBaseline, NothingInherited, CountsUp,
      LastKept, EpochsEndKept, SourceTotal, Marked, PositiveIncrements, BaselineReadings;
    var a, origin := AgentFor(u, source), EndToEnd.Origin(u, steps, source);
    InFiles(u, steps, source);
    OriginInFile(u, steps, source);
    FileToLedger(u, steps, source);
    SinceBaseline(a, Run(u, steps).files[source], origin);
    TakesSomethingOver(a, Run(u, steps).files[source][..origin]);
  }

  lemma InFiles(u: Setup, steps: seq<Step>, source: string)
    requires CaughtUp(u, Run(u, steps), source)
    ensures source in Run(u, steps).files
  {
  }
}
