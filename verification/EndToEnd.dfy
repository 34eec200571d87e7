/** From the bytes of an append-only file to the ledger: what a source is charged, against the counter values
    its complete lines contain. */
module EndToEnd {
  import opened Wrappers
  import opened Wire
  import opened Ledger
  import opened LedgerProofs
  import opened Accounting
  import opened Exactness
  import opened Scanner
  import opened Collector
  import opened Pipeline

  /* ---- Readings in a list of events ---- */

  function RawReadings(events: seq<UsageEvent>, s: Source): seq<Reading> {
    if events == [] then []
    else
      var n := |events| - 1;
      RawReadings(events[..n], s) +
      if events[n].kind.ExactUsage? && SourceOf(events[n]) == s then [Reading(events[n].sourceEpoch, events[n].counts.total)] else []
  }

  lemma {:induction false} RawReadingsJoin(a: seq<UsageEvent>, b: seq<UsageEvent>, s: Source)
    ensures RawReadings(a + b, s) == RawReadings(a, s) + RawReadings(b, s)
  {
    if b == [] {
      assert a + b == a;
    } else {
      var n := |b| - 1;
      RawReadingsJoin(a, b[..n], s);
      assert (a + b)[..|a + b| - 1] == a + b[..n] && (a + b)[|a + b| - 1] == b[n];
    }
  }

  lemma {:induction false} DistinctMeansAllRead(log: seq<UsageEvent>, s: Source)
    requires DistinctIds(log)
    ensures ReadingsOf(log, s) == RawReadings(log, s)
  {
    if log != [] {
      var n := |log| - 1;
      DistinctMeansAllRead(log[..n], s);
      assert log[n].eventId !in Ids(log[..n]);
    }
  }

  lemma {:induction false} ForeignReadings(events: seq<UsageEvent>, s: Source)
    requires forall i :: 0 <= i < |events| ==> !(events[i].kind.ExactUsage? && SourceOf(events[i]) == s)
    ensures RawReadings(events, s) == []
  {
    if events != [] {
      ForeignReadings(events[..|events| - 1], s);
    }
  }

  /* ---- The agent's numbering of epochs ---- */

  /** A later epoch begins exactly when the total falls. */
  ghost predicate Stepwise(rs: seq<Reading>) {
    forall i :: 0 <= i < |rs| - 1 ==>
      rs[i + 1].epoch == rs[i].epoch + if rs[i + 1].total < rs[i].total then 1 else 0
  }

  /** The cursor remembers the last reading, and has numbered those since the file was last reopened — from
      reading `k` on — stepwise; everything before belongs to earlier generations. */
  ghost predicate Tracks(c: Cursor, rs: seq<Reading>, k: nat) {
    && k <= |rs| && Ordered(rs) && Stepwise(rs[k..])
    && (c.initialised <==> k < |rs|)
    && (k < |rs| ==> rs[|rs| - 1] == Reading(c.generation, c.lastTotal))
    && (k == |rs| && rs != [] ==> rs[|rs| - 1].epoch < c.generation)
  }

  lemma AppendedOrder(rs: seq<Reading>, r: Reading)
    requires Ordered(rs)
    requires rs != [] ==> var last := rs[|rs| - 1]; last.epoch < r.epoch || (last.epoch == r.epoch && last.total <= r.total)
    ensures Ordered(rs + [r])
  {
  }

  lemma AppendedStep(rs: seq<Reading>, r: Reading)
    requires Stepwise(rs)
    requires rs != [] ==> var last := rs[|rs| - 1]; r.epoch == last.epoch + if r.total < last.total then 1 else 0
    ensures Stepwise(rs + [r])
  {
  }

  lemma NoticeTracks(c: Cursor, p: Parsed, rs: seq<Reading>, k: nat)
    requires Tracks(c, rs, k)
    ensures var next := Notice(c, p);
            Tracks(next, if p.kind.ExactUsage? then rs + [Reading(next.generation, p.counts.total)] else rs, k)
  {
    var r := Reading(Notice(c, p).generation, p.counts.total);
    assert (rs + [r])[k..] == rs[k..] + [r];
    assert k < |rs| ==> rs[k..][|rs[k..]| - 1] == rs[|rs| - 1];
    if p.kind.ExactUsage? {
      AppendedOrder(rs, r);
      AppendedStep(rs[k..], r);
    }
  }

  lemma TracksLine(a: Agent, c: Cursor, line: seq<byte>, rs: seq<Reading>, k: nat)
    requires Tracks(c, rs, k)
    ensures Tracks(StepLine(a, c, line).0, rs + RawReadings(StepLine(a, c, line).1, (a.hostId, a.sourceId)), k)
  {
    hide Tracks, Trim, RawReadings, ParseRecord;
    var step, s := StepLine(a, c, line), (a.hostId, a.sourceId);
    var found := ParseRecord(a, c.context, Trim(line), c.offset);
    var moved := c.(offset := c.offset + |line|, context := found.0);
    TracksMoved(c, moved, rs, k);
    if found.1.None? {
      assert step == (moved, []);
      assert RawReadings([], s) == [] by { NoReadings(s); }
    } else {
      var p, next := found.1.value, Notice(moved, found.1.value);
      var e := EventFor(a, p, c.offset, next.generation);
      assert step == (next, [e]);
      NoticeTracks(moved, p, rs, k);
      SingleReading(e, s);
      assert e.kind == p.kind && SourceOf(e) == s && e.counts == p.counts && e.sourceEpoch == next.generation;
    }
    assert rs + [] == rs;
  }

  lemma NoReadings(s: Source)
    ensures RawReadings([], s) == []
  {
  }

  lemma TracksMoved(c: Cursor, moved: Cursor, rs: seq<Reading>, k: nat)
    requires Tracks(c, rs, k)
    requires moved.generation == c.generation && moved.initialised == c.initialised && moved.lastTotal == c.lastTotal
    ensures Tracks(moved, rs, k)
  {
  }

  lemma SingleReading(e: UsageEvent, s: Source)
    ensures RawReadings([e], s) == if e.kind.ExactUsage? && SourceOf(e) == s then [Reading(e.sourceEpoch, e.counts.total)] else []
  {
    assert [e][..0] == [] && RawReadings([e][..0], s) == [];
  }

  lemma ScanReadings(a: Agent, file: seq<byte>, c: Cursor, s: Source)
    requires NextLine(a, file, c).Some?
    ensures var step := NextLine(a, file, c).value;
            RawReadings(Consume(a, file, c).1, s) == RawReadings(step.1, s) + RawReadings(Consume(a, file, step.0).1, s)
  {
    var step := NextLine(a, file, c).value;
    RawReadingsJoin(step.1, Consume(a, file, step.0).1, s);
  }

  lemma Assoc(x: seq<Reading>, y: seq<Reading>, z: seq<Reading>)
    ensures (x + y) + z == x + (y + z)
  {
  }

  lemma {:induction false} TracksScan(a: Agent, file: seq<byte>, c: Cursor, rs: seq<Reading>, k: nat)
    requires Tracks(c, rs, k)
    ensures Tracks(Consume(a, file, c).0, rs + RawReadings(Consume(a, file, c).1, (a.hostId, a.sourceId)), k)
    decreases |file| - c.offset
  {
    var s := (a.hostId, a.sourceId);
    var step := NextLine(a, file, c);
    if step.Some? {
      TracksLine(a, c, file[c.offset..LineEnd(file, c.offset).value], rs, k);
      TracksScan(a, file, step.value.0, rs + RawReadings(step.value.1, s), k);
      ScanReadings(a, file, c, s);
      Assoc(rs, RawReadings(step.value.1, s), RawReadings(Consume(a, file, step.value.0).1, s));
    } else {
      assert rs + [] == rs;
    }
  }

  lemma FollowedScan(a: Agent, file: seq<byte>, c: Cursor, size: nat, rs: seq<Reading>)
    requires Followed(c, rs)
    ensures var scan := Consume(a, file, Reopened(c, size));
            Followed(scan.0, rs + RawReadings(scan.1, (a.hostId, a.sourceId)))
  {
    var k: nat :| Tracks(c, rs, k);
    if size < c.offset {
      assert rs[|rs|..] == [];
      assert Tracks(Reopened(c, size), rs, |rs|);
      TracksScan(a, file, Reopened(c, size), rs, |rs|);
    } else {
      TracksScan(a, file, c, rs, k);
    }
  }

  lemma {:induction false} OtherSourceScan(a: Agent, file: seq<byte>, c: Cursor, s: Source)
    requires s != (a.hostId, a.sourceId)
    ensures RawReadings(Consume(a, file, c).1, s) == []
    decreases |file| - c.offset
  {
    var step := NextLine(a, file, c);
    if step.Some? {
      OtherSourceScan(a, file, step.value.0, s);
      ForeignReadings(step.value.1, s);
      RawReadingsJoin(step.value.1, Consume(a, file, step.value.0).1, s);
    }
  }

  ghost predicate Followed(c: Cursor, rs: seq<Reading>) {
    exists k: nat :: Tracks(c, rs, k)
  }

  ghost predicate CursorsTrack(u: Setup, s: System) {
    forall source: string ::
      if source in s.cursors then Followed(s.cursors[source], RawReadings(s.log, (u.hostId, source)))
      else RawReadings(s.log, (u.hostId, source)) == []
  }

  lemma QueueTracks(u: Setup, s: System, source: string, events: seq<UsageEvent>, c: Cursor)
    requires CursorsTrack(u, s)
    requires Followed(c, RawReadings(s.log, (u.hostId, source)) + RawReadings(events, (u.hostId, source)))
    requires forall other: string :: other != source ==> RawReadings(events, (u.hostId, other)) == []
    ensures CursorsTrack(u, Queue(s, events).(cursors := s.cursors[source := c]))
  {
    hide Tracks, RawReadings;
    forall other: string
      ensures RawReadings(s.log + events, (u.hostId, other)) == RawReadings(s.log, (u.hostId, other)) + RawReadings(events, (u.hostId, other))
      ensures other != source ==> RawReadings(s.log + events, (u.hostId, other)) == RawReadings(s.log, (u.hostId, other))
    {
      RawReadingsJoin(s.log, events, (u.hostId, other));
      assert RawReadings(s.log, (u.hostId, other)) + [] == RawReadings(s.log, (u.hostId, other));
    }
  }

  lemma {:induction false} ScanTracks(u: Setup, s: System, source: string, cut: nat)
    requires CursorsTrack(u, s)
    ensures CursorsTrack(u, Next(u, s, Scan(source, cut)))
  {
    if source in s.files && source in s.cursors && cut <= |s.files[source]| {
      var a, file := AgentFor(u, source), s.files[source];
      var from := Reopened(s.cursors[source], |file|);
      forall other: string | other != source
        ensures RawReadings(Consume(a, file[..cut], from).1, (u.hostId, other)) == []
      {
        OtherSourceScan(a, file[..cut], from, (u.hostId, other));
      }
      FollowedScan(a, file[..cut], s.cursors[source], |file|, RawReadings(s.log, (u.hostId, source)));
      QueueTracks(u, s, source, Consume(a, file[..cut], from).1, Consume(a, file[..cut], from).0);
    }
  }

  lemma DiscoverTracks(u: Setup, s: System, source: string, events: seq<UsageEvent>, c: Cursor)
    requires CursorsTrack(u, s) && source !in s.cursors && !c.initialised
    requires forall i :: 0 <= i < |events| ==> events[i].kind.Baseline?
    ensures CursorsTrack(u, Queue(s, events).(cursors := s.cursors[source := c]))
  {
    forall other: string ensures RawReadings(events, (u.hostId, other)) == [] {
      ForeignReadings(events, (u.hostId, other));
    }
    assert Tracks(c, [], 0);
    assert RawReadings(s.log, (u.hostId, source)) + RawReadings(events, (u.hostId, source)) == [];
    assert Followed(c, []);
    QueueTracks(u, s, source, events, c);
  }

  lemma NextTracks(u: Setup, s: System, step: Step)
    requires CursorsTrack(u, s)
    ensures CursorsTrack(u, Next(u, s, step))
  {
    match step
    case Scan(source, cut) => ScanTracks(u, s, source, cut);
    case Discover(source) =>
      if source in s.files && source !in s.cursors {
        DiscoverTracks(u, s, source, [], Discovered(AgentFor(u, source), 0));
        assert s.log + [] == s.log && Enqueue(s.spool, []) == s.spool;
      }
    case DiscoverLate(source, order) => DiscoverLateTracks(u, s, source, order);
    case Deliver(_, _) => SameLog(u, s, Next(u, s, step));
    case _ => SameLog(u, s, Next(u, s, step));
  }

  lemma SameLog(u: Setup, s: System, t: System)
    requires CursorsTrack(u, s) && t.log == s.log && t.cursors == s.cursors
    ensures CursorsTrack(u, t)
  {
  }

  lemma DiscoverLateTracks(u: Setup, s: System, source: string, order: seq<string>)
    requires CursorsTrack(u, s)
    ensures CursorsTrack(u, Next(u, s, DiscoverLate(source, order)))
  {
    if source in s.files && source !in s.cursors {
      var last, size := BaselineMap(u, source, s.files[source]), |s.files[source]|;
      if Lists(order, last.Keys) {
        DiscoverTracks(u, s, source, BaselineEvents(AgentFor(u, source), size, last, order), Discovered(AgentFor(u, source), size));
      }
    }
  }

  lemma {:induction false} CursorsTrackAlways(u: Setup, steps: seq<Step>)
    ensures CursorsTrack(u, Run(u, steps))
  {
    if steps != [] {
      CursorsTrackAlways(u, steps[..|steps| - 1]);
      NextTracks(u, Run(u, steps[..|steps| - 1]), steps[|steps| - 1]);
    }
  }

  lemma {:induction false} OrderedPrefixes(log: seq<UsageEvent>, k: nat, s: Source)
    requires k <= |log| && Ordered(RawReadings(log, s))
    ensures Ordered(RawReadings(log[..k], s))
  {
    RawReadingsJoin(log[..k], log[k..], s);
    assert log == log[..k] + log[k..];
    var rs, part := RawReadings(log, s), RawReadings(log[..k], s);
    forall i | 0 <= i < |part| - 1
      ensures part[i].epoch < part[i + 1].epoch || (part[i].epoch == part[i + 1].epoch && part[i].total <= part[i + 1].total)
    {
      assert part[i] == rs[i] && part[i + 1] == rs[i + 1];
    }
  }

  /** What the server has taken in so far. */
  ghost function Taken(u: Setup, steps: seq<Step>): seq<UsageEvent> {
    InvAlways(u, steps);
    Run(u, steps).log[..Run(u, steps).received]
  }

  /** In every reachable state the events the server has taken in are what the ledger theorems ask for. */
  lemma ReachableReadings(u: Setup, steps: seq<Step>, source: string)
    ensures var taken, key := Taken(u, steps), (u.hostId, source);
            && Run(u, steps).server == ApplyAll(EMPTY, taken)
            && (forall i :: 0 <= i < |taken| ==> ValidUsageEvent(taken[i]))
            && EpochsFromZero(taken, key)
            && Ordered(ReadingsOf(taken, key)) && ReadingsOf(taken, key) == RawReadings(taken, key)
  {
    InvAlways(u, steps);
    CursorsTrackAlways(u, steps);
    hide Run;
    InvReadings(u, Run(u, steps), source);
  }

  lemma {:induction false} InvReadings(u: Setup, s: System, source: string)
    requires Inv(u, s) && CursorsTrack(u, s)
    ensures var taken, key := s.log[..s.received], (u.hostId, source);
            && s.server == ApplyAll(EMPTY, taken)
            && (forall i :: 0 <= i < |taken| ==> ValidUsageEvent(taken[i]))
            && EpochsFromZero(taken, key)
            && Ordered(ReadingsOf(taken, key)) && ReadingsOf(taken, key) == RawReadings(taken, key)
  {
    hide Apply, ApplyAll, ValidUsageEvent, RawReadings, ReadingsOf, IsSlice;
    var key := (u.hostId, source);
    TrackedOrder(u, s, source);
    OrderedPrefixes(s.log, s.received, key);
    DistinctPrefix(s.log, s.received);
    DistinctMeansAllRead(s.log[..s.received], key);
  }

  lemma TrackedOrder(u: Setup, s: System, source: string)
    requires CursorsTrack(u, s)
    ensures Ordered(RawReadings(s.log, (u.hostId, source)))
  {
    hide RawReadings;
    if source in s.cursors {
      assert Followed(s.cursors[source], RawReadings(s.log, (u.hostId, source)));
    }
  }

  lemma DistinctPrefix(log: seq<UsageEvent>, k: nat)
    requires k <= |log| && DistinctIds(log)
    ensures DistinctIds(log[..k])
  {
  }

  /** Safety of the whole pipeline: in every reachable state, under every interleaving and whatever happened to
      the files, no source has been charged more than the readings the server has taken from it. */
  lemma NeverMoreThanRead(u: Setup, steps: seq<Step>, source: string)
    ensures SourceTotal(Run(u, steps).server.usage, (u.hostId, source))
         <= Increments(RawReadings(Taken(u, steps), (u.hostId, source)))
  {
    ReachableReadings(u, steps, source);
    NeverOvercounted(Taken(u, steps), (u.hostId, source));
  }

  /* ---- An append-only file ---- */

  function Totals(rs: seq<Reading>): seq<int> {
    seq(|rs|, i requires 0 <= i < |rs| => rs[i].total)
  }

  /** The usage a cumulative counter shows: its first value, every rise, and every value it restarts at. */
  function PositiveIncrements(ts: seq<int>): int {
    if ts == [] then 0
    else if |ts| == 1 then ts[0]
    else
      var last, before := ts[|ts| - 1], ts[|ts| - 2];
      PositiveIncrements(ts[..|ts| - 1]) + if last < before then last else last - before
  }

  /** The counter values in the complete lines of a file, read from an offset on. */
  function FileReadings(a: Agent, file: seq<byte>, origin: nat): seq<Reading> {
    RawReadings(Consume(a, file, Discovered(a, origin)).1, (a.hostId, a.sourceId))
  }

  lemma {:induction false} StepwiseIncrements(rs: seq<Reading>)
    requires Stepwise(rs)
    ensures Increments(rs) == PositiveIncrements(Totals(rs))
  {
    if |rs| > 1 {
      var n := |rs| - 1;
      assert Stepwise(rs[..n]) by {
        assert forall i :: 0 <= i < n ==> rs[..n][i] == rs[i];
      }
      StepwiseIncrements(rs[..n]);
      assert Totals(rs)[..n] == Totals(rs[..n]);
      assert rs[n - 1 + 1].epoch == rs[n - 1].epoch + if rs[n].total < rs[n - 1].total then 1 else 0;
    }
  }

  lemma FileIncrements(a: Agent, file: seq<byte>, origin: nat)
    ensures Increments(FileReadings(a, file, origin)) == PositiveIncrements(Totals(FileReadings(a, file, origin)))
  {
    var c, rs := Discovered(a, origin), FileReadings(a, file, origin);
    assert Tracks(c, [], 0);
    TracksScan(a, file, c, [], 0);
    assert [] + rs == rs && rs[0..] == rs;
    StepwiseIncrements(rs);
  }

  /** The file is only ever appended to. */
  ghost predicate AppendOnly(u: Setup, steps: seq<Step>, source: string) {
    steps == [] ||
    var before, step := Run(u, steps[..|steps| - 1]), steps[|steps| - 1];
    && AppendOnly(u, steps[..|steps| - 1], source)
    && (step.Write? && step.source == source && source in before.files ==> before.files[source] <= step.contents)
  }

  /** Where reading the file began. */
  ghost function Origin(u: Setup, steps: seq<Step>, source: string): nat {
    if steps == [] then 0
    else if source in Run(u, steps[..|steps| - 1]).cursors then Origin(u, steps[..|steps| - 1], source)
    else if source in Run(u, steps).cursors then Run(u, steps).cursors[source].offset
    else 0
  }

  /** The checkpoint and the log say what one scan of the file, up to the checkpoint, would have said. */
  ghost predicate MirrorsFile(u: Setup, s: System, source: string, origin: nat) {
    source in s.cursors ==>
      && source in s.files
      && var a, c, file := AgentFor(u, source), s.cursors[source], s.files[source];
      && origin <= c.offset <= |file|
      && Consume(a, file[..c.offset], Discovered(a, origin)).0 == c
      && RawReadings(s.log, (u.hostId, source)) == FileReadings(a, file[..c.offset], origin)
  }

  /** A scan that resumes from where an earlier scan of the same file stopped. */
  lemma ScanExtends(a: Agent, file: seq<byte>, start: Cursor, c: Cursor, cut: nat)
    requires start.offset <= c.offset <= cut <= |file|
    requires Consume(a, file[..c.offset], start).0 == c
    ensures var scan := Consume(a, file[..cut], c);
            scan.0.offset <= cut
            && Consume(a, file[..scan.0.offset], start) == (scan.0, Consume(a, file[..c.offset], start).1 + scan.1)
  {
    hide Consume;
    assert file[..cut][..c.offset] == file[..c.offset];
    ConsumeResumes(a, file[..cut], c.offset, start);
    ScanStopsAtOffset(a, file[..cut], start);
    var reached := Consume(a, file[..cut], start).0.offset;
    assert file[..cut][..reached] == file[..reached];
  }

  lemma {:induction false} ScanMirrors(u: Setup, s: System, source: string, origin: nat, cut: nat)
    requires MirrorsFile(u, s, source, origin) && source in s.cursors
    ensures MirrorsFile(u, Next(u, s, Scan(source, cut)), source, origin)
  {
    hide StepLine, LineEnd;
    if cut <= |s.files[source]| {
      var a, c, file := AgentFor(u, source), s.cursors[source], s.files[source];
      var scan, start, key := Consume(a, file[..cut], c), Discovered(a, origin), (u.hostId, source);
      RawReadingsJoin(s.log, scan.1, key);
      if c.offset <= cut {
        ScanExtends(a, file, start, c, cut);
        RawReadingsJoin(Consume(a, file[..c.offset], start).1, scan.1, key);
      } else {
        assert RawReadings(s.log, key) + [] == RawReadings(s.log, key);
      }
    }
  }

  lemma OtherScanMirrors(u: Setup, s: System, source: string, origin: nat, other: string, cut: nat)
    requires MirrorsFile(u, s, source, origin) && other != source
    ensures MirrorsFile(u, Next(u, s, Scan(other, cut)), source, origin)
  {
    if other in s.files && other in s.cursors && cut <= |s.files[other]| {
      var a, from := AgentFor(u, other), Reopened(s.cursors[other], |s.files[other]|);
      OtherSourceScan(a, s.files[other][..cut], from, (u.hostId, source));
      RawReadingsJoin(s.log, Consume(a, s.files[other][..cut], from).1, (u.hostId, source));
      assert RawReadings(s.log, (u.hostId, source)) + [] == RawReadings(s.log, (u.hostId, source));
    }
  }

  lemma DiscoverMirrors(u: Setup, s: System, source: string, events: seq<UsageEvent>, at: nat)
    requires source in s.files && at <= |s.files[source]| && RawReadings(s.log, (u.hostId, source)) == []
    requires forall i :: 0 <= i < |events| ==> events[i].kind.Baseline?
    ensures MirrorsFile(u, Queue(s, events).(cursors := s.cursors[source := Discovered(AgentFor(u, source), at)]), source, at)
  {
    ForeignReadings(events, (u.hostId, source));
    RawReadingsJoin(s.log, events, (u.hostId, source));
  }

  lemma WriteMirrors(u: Setup, s: System, source: string, origin: nat, contents: seq<byte>)
    requires MirrorsFile(u, s, source, origin) && source in s.cursors
    requires source in s.files ==> s.files[source] <= contents
    ensures MirrorsFile(u, Next(u, s, Write(source, contents)), source, origin)
  {
    hide Consume, RawReadings, FileReadings;
    var c := s.cursors[source];
    assert contents[..c.offset] == s.files[source][..c.offset];
  }

  lemma LateMirrors(u: Setup, s: System, source: string, origin: nat, other: string, order: seq<string>)
    requires MirrorsFile(u, s, source, origin) && source in s.cursors
    ensures MirrorsFile(u, Next(u, s, DiscoverLate(other, order)), source, origin)
  {
    hide Consume, FileReadings;
    if other in s.files && other !in s.cursors {
      var last, size := BaselineMap(u, other, s.files[other]), |s.files[other]|;
      if Lists(order, last.Keys) {
        var events := BaselineEvents(AgentFor(u, other), size, last, order);
        ForeignReadings(events, (u.hostId, source));
        RawReadingsJoin(s.log, events, (u.hostId, source));
        assert RawReadings(s.log, (u.hostId, source)) + [] == RawReadings(s.log, (u.hostId, source));
      }
    }
  }

  lemma RestMirrors(u: Setup, s: System, step: Step, source: string, origin: nat)
    requires MirrorsFile(u, s, source, origin) && source in s.cursors
    requires !step.Scan? && !step.DiscoverLate? && !(step.Write? && step.source == source)
    ensures MirrorsFile(u, Next(u, s, step), source, origin)
  {
    hide Consume, RawReadings, FileReadings;
  }

  lemma {:induction false} KnownMirrors(u: Setup, s: System, step: Step, source: string, origin: nat)
    requires MirrorsFile(u, s, source, origin) && source in s.cursors
    requires step.Write? && step.source == source && source in s.files ==> s.files[source] <= step.contents
    ensures MirrorsFile(u, Next(u, s, step), source, origin)
  {
    hide MirrorsFile, Next;
    match step
    case Scan(other, cut) =>
      if other == source {
        ScanMirrors(u, s, source, origin, cut);
      } else {
        OtherScanMirrors(u, s, source, origin, other, cut);
      }
    case Write(other, contents) =>
      if other == source {
        WriteMirrors(u, s, source, origin, contents);
      } else {
        RestMirrors(u, s, step, source, origin);
      }
    case DiscoverLate(other, order) => LateMirrors(u, s, source, origin, other, order);
    case _ => RestMirrors(u, s, step, source, origin);
  }

  lemma {:induction false} MirrorsAlways(u: Setup, steps: seq<Step>, source: string)
    requires AppendOnly(u, steps, source)
    ensures MirrorsFile(u, Run(u, steps), source, Origin(u, steps, source))
  {
    if steps != [] {
      var s, step := Run(u, steps[..|steps| - 1]), steps[|steps| - 1];
      MirrorsAlways(u, steps[..|steps| - 1], source);
      CursorsTrackAlways(u, steps[..|steps| - 1]);
      if source in s.cursors {
        KnownMirrors(u, s, step, source, Origin(u, steps[..|steps| - 1], source));
      } else if source in Run(u, steps).cursors {
        NewMirrors(u, s, step, source);
      }
    }
  }

  lemma NewMirrors(u: Setup, s: System, step: Step, source: string)
    requires CursorsTrack(u, s) && source !in s.cursors && source in Next(u, s, step).cursors
    ensures MirrorsFile(u, Next(u, s, step), source, Next(u, s, step).cursors[source].offset)
  {
    match step
    case Discover(_) =>
      DiscoverMirrors(u, s, source, [], 0);
      assert s.log + [] == s.log && Enqueue(s.spool, []) == s.spool;
    case DiscoverLate(_, order) =>
      var last, size := BaselineMap(u, source, s.files[source]), |s.files[source]|;
      DiscoverMirrors(u, s, source, BaselineEvents(AgentFor(u, source), size, last, order), size);
    case _ =>
  }

  /* ---- The file and the ledger ---- */

  ghost predicate NoBaseline(events: seq<UsageEvent>, s: Source) {
    forall i :: 0 <= i < |events| ==> !(events[i].kind.Baseline? && SourceOf(events[i]) == s)
  }

  /** Everything in the file has been scanned, and everything scanned has been uploaded. */
  ghost predicate CaughtUp(u: Setup, s: System, source: string) {
    && source in s.cursors && source in s.files && s.spool.rows == []
    && NextLine(AgentFor(u, source), s.files[source], s.cursors[source]).None?
  }

  lemma {:induction false} CaughtUpReadings(u: Setup, steps: seq<Step>, source: string)
    requires AppendOnly(u, steps, source) && CaughtUp(u, Run(u, steps), source)
    ensures var s := Run(u, steps);
            && s.received == |s.log|
            && RawReadings(s.log, (u.hostId, source))
               == FileReadings(AgentFor(u, source), s.files[source], Origin(u, steps, source))
  {
    var s := Run(u, steps);
    InvAlways(u, steps);
    MirrorsAlways(u, steps, source);
    var a, c, file := AgentFor(u, source), s.cursors[source], s.files[source];
    var start := Discovered(a, Origin(u, steps, source));
    ConsumeResumes(a, file, c.offset, start);
    var first := Consume(a, file[..c.offset], start);
    assert first.1 + [] == first.1;
  }

  /* ---- The baseline of a file ---- */

  /** The largest of the readings, and 0. */
  ghost function Largest(m: LastReadings): int
    decreases |m|
  {
    if m == map[] then 0
    else
      var c :| c in m;
      var rest := Largest(m - {c});
      if rest < m[c].0.counts.total then m[c].0.counts.total else rest
  }

  lemma {:induction false} LargestBounds(m: LastReadings)
    ensures 0 <= Largest(m) && forall c :: c in m ==> m[c].0.counts.total <= Largest(m)
    ensures Largest(m) == 0 || exists c :: c in m && m[c].0.counts.total == Largest(m)
    decreases |m|
  {
    if m != map[] {
      var c :| c in m && Largest(m) == if Largest(m - {c}) < m[c].0.counts.total then m[c].0.counts.total else Largest(m - {c});
      LargestBounds(m - {c});
      forall d | d in m ensures m[d].0.counts.total <= Largest(m) {
        assert d != c ==> d in m - {c};
      }
      if Largest(m - {c}) != 0 {
        var d :| d in m - {c} && (m - {c})[d].0.counts.total == Largest(m - {c});
        assert d in m && m[d].0.counts.total == Largest(m - {c});
      }
    }
  }

  /** What a file already showed when it was taken over: the largest of its conversations' last readings. */
  ghost function FileBaseline(a: Agent, file: seq<byte>): int {
    Largest(BaselineReadings(a, file, 0, FreshContext(a.sourceId), map[]))
  }

  /** The largest baseline in a list of events, copies or not. */
  function RawTop(events: seq<UsageEvent>, s: Source): (top: int)
    ensures 0 <= top
  {
    if events == [] then 0
    else
      var n := |events| - 1;
      var top := RawTop(events[..n], s);
      if IsBaselineOf(events[n], s) && top < events[n].counts.total then events[n].counts.total else top
  }

  lemma {:induction false} RawTopJoin(a: seq<UsageEvent>, b: seq<UsageEvent>, s: Source)
    ensures RawTop(a + b, s) == if RawTop(a, s) < RawTop(b, s) then RawTop(b, s) else RawTop(a, s)
  {
    if b == [] {
      assert a + b == a;
    } else {
      var n := |b| - 1;
      RawTopJoin(a, b[..n], s);
      assert (a + b)[..|a + b| - 1] == a + b[..n] && (a + b)[|a + b| - 1] == b[n];
    }
  }

  lemma {:induction false} RawTopBounds(events: seq<UsageEvent>, s: Source)
    ensures forall i :: 0 <= i < |events| && IsBaselineOf(events[i], s) ==> events[i].counts.total <= RawTop(events, s)
    ensures RawTop(events, s) == 0 || exists i :: 0 <= i < |events| && IsBaselineOf(events[i], s) && events[i].counts.total == RawTop(events, s)
  {
    if events != [] {
      var n := |events| - 1;
      RawTopBounds(events[..n], s);
      assert forall i :: 0 <= i < n ==> events[..n][i] == events[i];
    }
  }

  lemma {:induction false} NoRawTop(events: seq<UsageEvent>, s: Source)
    requires NoBaseline(events, s)
    ensures RawTop(events, s) == 0
  {
    if events != [] {
      NoRawTop(events[..|events| - 1], s);
    }
  }

  lemma {:induction false} DistinctTop(log: seq<UsageEvent>, s: Source)
    requires DistinctIds(log)
    ensures TopBaseline(log, s) == RawTop(log, s)
    ensures HasBaseline(log, s) <==> !NoBaseline(log, s)
  {
    if log != [] {
      var n := |log| - 1;
      DistinctTop(log[..n], s);
      assert log[n].eventId !in Ids(log[..n]);
      assert forall i :: 0 <= i < n ==> log[..n][i] == log[i];
    }
  }

  /** The queued baselines name the file's baseline, in whatever order they are listed. */
  lemma ListedTop(a: Agent, size: nat, last: LastReadings, order: seq<string>)
    requires Lists(order, last.Keys)
    ensures var events := BaselineEvents(a, size, last, order);
            RawTop(events, (a.hostId, a.sourceId)) == Largest(last) && (events == [] <==> last == map[])
  {
    var events, s := BaselineEvents(a, size, last, order), (a.hostId, a.sourceId);
    RawTopBounds(events, s);
    LargestBounds(last);
    forall i | 0 <= i < |events| ensures IsBaselineOf(events[i], s) && events[i].counts == last[order[i]].0.counts {
    }
    forall c | c in last ensures last[c].0.counts.total <= RawTop(events, s) {
      var i :| 0 <= i < |order| && order[i] == c;
      assert events[i].counts == last[c].0.counts;
    }
  }

  /** The log's baselines of a source are those of the part of the file it was taken over with, and lead its readings. */
  ghost predicate MirrorsBaseline(u: Setup, s: System, source: string, origin: nat) {
    var key := (u.hostId, source);
    if source in s.cursors then
      && source in s.files && origin <= |s.files[source]| && BaselinesLead(s.log, key)
      && var last := BaselineMap(u, source, s.files[source][..origin]);
      && RawTop(s.log, key) == Largest(last) && (NoBaseline(s.log, key) <==> last == map[])
    else NoBaseline(s.log, key) && RawReadings(s.log, key) == []
  }

  /** Events that are no baselines of the source change none of that. */
  lemma OtherEvents(log: seq<UsageEvent>, events: seq<UsageEvent>, s: Source)
    requires NoBaseline(events, s)
    ensures BaselinesLead(log, s) ==> BaselinesLead(log + events, s)
    ensures RawTop(log + events, s) == RawTop(log, s)
    ensures NoBaseline(log + events, s) <==> NoBaseline(log, s)
  {
    RawTopJoin(log, events, s);
    NoRawTop(events, s);
    var all := log + events;
    assert forall i :: 0 <= i < |log| ==> all[i] == log[i];
    assert forall i :: |log| <= i < |all| ==> all[i] == events[i - |log|];
  }

  lemma ScannedNoBaseline(u: Setup, source: string, file: seq<byte>, c: Cursor, key: Source)
    ensures NoBaseline(Consume(AgentFor(u, source), file, c).1, key)
  {
    ScanEmits(u, source, file, c);
  }

  lemma {:induction false} NoReadingRaw(events: seq<UsageEvent>, s: Source)
    requires RawReadings(events, s) == []
    ensures forall i :: 0 <= i < |events| ==> !(events[i].kind.ExactUsage? && SourceOf(events[i]) == s)
  {
    if events != [] {
      var n := |events| - 1;
      NoReadingRaw(events[..n], s);
      assert forall i :: 0 <= i < n ==> events[..n][i] == events[i];
    }
  }

  /** Taking a file over. */
  lemma TakenOver(u: Setup, s: System, source: string, events: seq<UsageEvent>, last: LastReadings, order: seq<string>, at: nat)
    requires MirrorsBaseline(u, s, source, 0) && source !in s.cursors && source in s.files && at <= |s.files[source]|
    requires Lists(order, last.Keys) && events == BaselineEvents(AgentFor(u, source), at, last, order)
    requires last == BaselineMap(u, source, s.files[source][..at])
    ensures MirrorsBaseline(u, Queue(s, events).(cursors := s.cursors[source := Discovered(AgentFor(u, source), at)]), source, at)
  {
    hide BaselineReadings, BaselineEvent, Largest, Lists;
    var key := (u.hostId, source);
    ListedTop(AgentFor(u, source), at, last, order);
    RawTopJoin(s.log, events, key);
    NoRawTop(s.log, key);
    NoReadingRaw(s.log, key);
    AllBaselines(u, source, at, last, order);
    var all := s.log + events;
    assert forall i :: 0 <= i < |s.log| ==> all[i] == s.log[i];
    assert forall i :: |s.log| <= i < |all| ==> all[i] == events[i - |s.log|];
    if events != [] {
      assert IsBaselineOf(all[|s.log|], key);
    }
  }

  lemma AllBaselines(u: Setup, source: string, size: nat, last: LastReadings, order: seq<string>)
    requires Lists(order, last.Keys)
    ensures var events := BaselineEvents(AgentFor(u, source), size, last, order);
            forall i :: 0 <= i < |events| ==> IsBaselineOf(events[i], (u.hostId, source))
  {
  }

  lemma NothingToTakeOver(u: Setup, source: string, file: seq<byte>)
    ensures BaselineMap(u, source, file[..0]) == map[] && Largest(map[]) == 0
  {
  }

  lemma ForeignBaselines(u: Setup, other: string, size: nat, last: LastReadings, order: seq<string>, source: string)
    requires Lists(order, last.Keys) && other != source
    ensures NoBaseline(BaselineEvents(AgentFor(u, other), size, last, order), (u.hostId, source))
  {
    AllBaselines(u, other, size, last, order);
  }

  lemma QueueOther(u: Setup, s: System, source: string, origin: nat, other: string, events: seq<UsageEvent>, c: Cursor)
    requires MirrorsBaseline(u, s, source, origin) && NoBaseline(events, (u.hostId, source))
    requires source in s.cursors || (other != source && RawReadings(events, (u.hostId, source)) == [])
    ensures MirrorsBaseline(u, Queue(s, events).(cursors := s.cursors[other := c]), source, origin)
  {
    hide BaselineMap, Largest, BaselinesLead;
    OtherEvents(s.log, events, (u.hostId, source));
    RawReadingsJoin(s.log, events, (u.hostId, source));
  }

  lemma ScanKeepsBaseline(u: Setup, s: System, source: string, origin: nat, other: string, cut: nat)
    requires MirrorsBaseline(u, s, source, origin)
    ensures MirrorsBaseline(u, Next(u, s, Scan(other, cut)), source, origin)
  {
    hide MirrorsBaseline, Consume;
    if other in s.files && other in s.cursors && cut <= |s.files[other]| {
      var a, from := AgentFor(u, other), Reopened(s.cursors[other], |s.files[other]|);
      var scan := Consume(a, s.files[other][..cut], from);
      ScannedNoBaseline(u, other, s.files[other][..cut], from, (u.hostId, source));
      if other != source {
        OtherSourceScan(a, s.files[other][..cut], from, (u.hostId, source));
      }
      KnownOrOther(u, s, source, origin, other);
      QueueOther(u, s, source, origin, other, scan.1, scan.0);
    }
  }

  lemma KnownOrOther(u: Setup, s: System, source: string, origin: nat, other: string)
    requires other in s.cursors
    ensures source in s.cursors || other != source
  {
  }

  lemma DiscoverKeepsBaseline(u: Setup, s: System, source: string, origin: nat, other: string, order: seq<string>)
    requires MirrorsBaseline(u, s, source, origin) && other != source
    ensures MirrorsBaseline(u, Next(u, s, DiscoverLate(other, order)), source, origin)
  {
    hide MirrorsBaseline, BaselineReadings;
    if other in s.files && other !in s.cursors && Lists(order, BaselineMap(u, other, s.files[other]).Keys) {
      var last, size := BaselineMap(u, other, s.files[other]), |s.files[other]|;
      var events := BaselineEvents(AgentFor(u, other), size, last, order);
      ForeignBaselines(u, other, size, last, order, source);
      ForeignReadings(events, (u.hostId, source));
      QueueOther(u, s, source, origin, other, events, Discovered(AgentFor(u, other), size));
    }
  }

  lemma {:induction false} StepKeepsBaseline(u: Setup, s: System, step: Step, source: string, origin: nat)
    requires MirrorsBaseline(u, s, source, origin) && (source in s.cursors || source !in Next(u, s, step).cursors)
    requires step.Write? && step.source == source && source in s.files ==> s.files[source] <= step.contents
    ensures MirrorsBaseline(u, Next(u, s, step), source, origin)
  {
    match step
    case Scan(other, cut) => ScanKeepsBaseline(u, s, source, origin, other, cut);
    case Write(other, contents) =>
      if other == source && source in s.cursors {
        assert contents[..origin] == s.files[source][..origin];
      }
    case DiscoverLate(other, order) =>
      if other != source {
        DiscoverKeepsBaseline(u, s, source, origin, other, order);
      }
    case _ =>
  }

  lemma {:induction false} FirstSightMirrors(u: Setup, s: System, step: Step, source: string)
    requires MirrorsBaseline(u, s, source, 0) && source !in s.cursors && source in Next(u, s, step).cursors
    ensures MirrorsBaseline(u, Next(u, s, step), source, Next(u, s, step).cursors[source].offset)
  {
    hide MirrorsBaseline, BaselineReadings, Largest;
    match step
    case Discover(_) =>
      NothingToTakeOver(u, source, s.files[source]);
      assert BaselineEvents(AgentFor(u, source), 0, map[], []) == [];
      TakenOver(u, s, source, [], map[], [], 0);
      assert s.log + [] == s.log && Enqueue(s.spool, []) == s.spool;
    case DiscoverLate(_, order) =>
      var file := s.files[source];
      var last := BaselineMap(u, source, file);
      assert file[..|file|] == file;
      TakenOver(u, s, source, BaselineEvents(AgentFor(u, source), |file|, last, order), last, order, |file|);
    case _ =>
  }

  lemma {:induction false} BaselinesAlways(u: Setup, steps: seq<Step>, source: string)
    requires AppendOnly(u, steps, source)
    ensures MirrorsBaseline(u, Run(u, steps), source, Origin(u, steps, source))
  {
    hide MirrorsBaseline, Next;
    if steps == [] {
      StartMirrors(u, source);
    } else {
      var earlier := steps[..|steps| - 1];
      var s, step := Run(u, earlier), steps[|steps| - 1];
      BaselinesAlways(u, earlier, source);
      if source in s.cursors || source !in Run(u, steps).cursors {
        OriginUnknown(u, earlier, source);
        OriginUnknown(u, steps, source);
        StepKeepsBaseline(u, s, step, source, Origin(u, earlier, source));
      } else {
        OriginUnknown(u, earlier, source);
        FirstSightMirrors(u, s, step, source);
      }
    }
  }

  lemma StartMirrors(u: Setup, source: string)
    ensures MirrorsBaseline(u, START, source, 0)
  {
  }

  /** Files are never forgotten, so one that is unknown never was known. */
  lemma {:induction false} OriginUnknown(u: Setup, steps: seq<Step>, source: string)
    ensures source !in Run(u, steps).cursors ==> Origin(u, steps, source) == 0
  {
    if steps != [] && source in Run(u, steps[..|steps| - 1]).cursors {
      KnownStays(u, Run(u, steps[..|steps| - 1]), steps[|steps| - 1], source);
    }
  }

  lemma KnownStays(u: Setup, s: System, step: Step, source: string)
    requires source in s.cursors
    ensures source in Next(u, s, step).cursors
  {
  }

  /* ---- The first reading ---- */

  /** The first reading of a scan from a fresh checkpoint is of the checkpoint's generation. */
  lemma {:induction false} FirstOfGeneration(a: Agent, file: seq<byte>, c: Cursor)
    requires !c.initialised
    ensures var rs := RawReadings(Consume(a, file, c).1, (a.hostId, a.sourceId));
            rs != [] ==> rs[0].epoch == c.generation
    decreases |file| - c.offset
  {
    var s, step := (a.hostId, a.sourceId), NextLine(a, file, c);
    if step.Some? {
      LineGeneration(a, c, file[c.offset..LineEnd(file, c.offset).value]);
      ScanReadings(a, file, c, s);
      if RawReadings(step.value.1, s) == [] {
        FirstOfGeneration(a, file, step.value.0);
      }
    }
  }

  lemma LineGeneration(a: Agent, c: Cursor, line: seq<byte>)
    requires !c.initialised
    ensures var (next, found) := StepLine(a, c, line);
            var rs := RawReadings(found, (a.hostId, a.sourceId));
            if rs == [] then !next.initialised && next.generation == c.generation else rs[0].epoch == c.generation
  {
    var found := StepLine(a, c, line).1;
    if found != [] {
      assert found == [found[0]];
      SingleReading(found[0], (a.hostId, a.sourceId));
    }
  }

  /* ---- From the file to the ledger ---- */

  function First(file: seq<byte>, n: nat): seq<byte> { if n <= |file| then file[..n] else file }

  lemma FirstReadingOfFile(u: Setup, steps: seq<Step>, source: string)
    requires AppendOnly(u, steps, source) && CaughtUp(u, Run(u, steps), source)
    ensures var log, key := Run(u, steps).log, (u.hostId, source);
            RawReadings(log, key) != [] ==> RawReadings(log, key)[0].epoch == 0
  {
    CaughtUpReadings(u, steps, source);
    FirstOfGeneration(AgentFor(u, source), Run(u, steps).files[source], Discovered(AgentFor(u, source), Origin(u, steps, source)));
  }

  /** What the run itself guarantees about the log of a source whose file is only appended to: its baselines lead, the
      largest of them is the file's, and if the first reading is not below it the first reading continues it. */
  lemma {:induction false} LogOfFile(u: Setup, steps: seq<Step>, source: string)
    requires AppendOnly(u, steps, source) && CaughtUp(u, Run(u, steps), source)
    ensures var s, key := Run(u, steps), (u.hostId, source);
            var last := BaselineMap(u, source, First(s.files[source], Origin(u, steps, source)));
            && s.server == ApplyAll(EMPTY, s.log) && (forall i :: 0 <= i < |s.log| ==> ValidUsageEvent(s.log[i]))
            && EpochsFromZero(s.log, key) && Ordered(ReadingsOf(s.log, key))
            && ReadingsOf(s.log, key) == RawReadings(s.log, key)
               == FileReadings(AgentFor(u, source), s.files[source], Origin(u, steps, source))
            && TopBaseline(s.log, key) == Largest(last)
            && (ReadingsOf(s.log, key) != [] && Largest(last) <= ReadingsOf(s.log, key)[0].total ==> BaselineFirst(s.log, key))
            && (last != map[] ==> NothingInherited(s.log, key))
  {
    hide Run, AppendOnly, Origin, BaselineReadings, Largest, TopBaseline, BaselineFirst, NothingInherited, Consume, Ordered;
    var s, key := Run(u, steps), (u.hostId, source);
    CaughtUpReadings(u, steps, source);
    ReachableReadings(u, steps, source);
    TakenAll(u, steps);
    BaselinesAlways(u, steps, source);
    FirstReadingOfFile(u, steps, source);
    DistinctLog(u, steps);
    DistinctTop(s.log, key);
    if ReadingsOf(s.log, key) != [] && TopBaseline(s.log, key) <= ReadingsOf(s.log, key)[0].total {
      LeadingBaselines(s.log, key);
    }
    if HasBaseline(s.log, key) {
      BaselineMeansNothingInherited(s.log, key);
    }
  }

  lemma TakenAll(u: Setup, steps: seq<Step>)
    requires Run(u, steps).received == |Run(u, steps).log|
    ensures Taken(u, steps) == Run(u, steps).log
  {
  }

  lemma DistinctLog(u: Setup, steps: seq<Step>)
    ensures DistinctIds(Run(u, steps).log)
  {
    InvAlways(u, steps);
  }

  /** The end-to-end claim for an append-only file, over every interleaving of appends, cut-short scans, lost
      acknowledgements and late duplicates. Once everything is scanned and uploaded, the source has been charged at most
      the positive increments of the counter in the file; and, unless its counter fell below the baseline in between or
      its first reading found the counter of another conversation, at most what those exceed the baseline by, where the
      baseline is what the file showed in the part that was there when it was taken over. It is charged exactly that if
      and only if every reading that closes an epoch, and the last, was kept on arrival; which they are when no dedup key
      recurs outside its source and epoch. */
  lemma {:induction false} FileToLedger(u: Setup, steps: seq<Step>, source: string)
    requires AppendOnly(u, steps, source) && CaughtUp(u, Run(u, steps), source)
    ensures var s, key, origin := Run(u, steps), (u.hostId, source), Origin(u, steps, source);
            var a, file := AgentFor(u, source), s.files[source];
            var totals, charged := Totals(FileReadings(a, file, origin)), SourceTotal(s.server.usage, key);
            var baseline, takenOver := FileBaseline(a, First(file, origin)), BaselineMap(u, source, First(file, origin)) != map[];
            && charged <= PositiveIncrements(totals)
            && (totals == [] ==> charged == 0)
            && (totals != [] && baseline <= totals[0] && (takenOver || NothingInherited(s.log, key)) ==>
                  && charged <= PositiveIncrements(totals) - baseline
                  && (charged == PositiveIncrements(totals) - baseline <==> LastKept(s.log, key) && EpochsEndKept(s.log, key))
                  && (KeysStayHome(s.log, key) ==> charged == PositiveIncrements(totals) - baseline))
  {
    hide Run, AppendOnly, Origin, BaselineReadings, Largest, TopBaseline, BaselineFirst, NothingInherited, Consume, Ordered, LastKept,
      EpochsEndKept, KeysStayHome, SourceTotal, Books, EpochsFromZero, Increments, PositiveIncrements;
    var s, key, origin := Run(u, steps), (u.hostId, source), Origin(u, steps, source);
    LogOfFile(u, steps, source);
    FileIncrements(AgentFor(u, source), s.files[source], origin);
    NeverOvercounted(s.log, key);
    var rs := ReadingsOf(s.log, key);
    if rs == [] {
      NothingCharged(s.log, key);
    } else if FileBaseline(AgentFor(u, source), First(s.files[source], origin)) <= rs[0].total && NothingInherited(s.log, key) {
      ForgivenIsBaseline(s.log, key);
      Reconciliation(s.log, key);
      ExactIff(s.log, key);
      if KeysStayHome(s.log, key) {
        CountedExactly(s.log, key);
      }
    }
  }

  lemma NothingCharged(log: seq<UsageEvent>, s: Source)
    requires forall i :: 0 <= i < |log| ==> ValidUsageEvent(log[i])
    requires EpochsFromZero(log, s) && ReadingsOf(log, s) == []
    ensures SourceTotal(ApplyAll(EMPTY, log).usage, s) == 0
  {
    WithinReadingsAlways(log, s);
  }

  /** In particular a file read from its start, whose conversations were not counted before, is charged exactly. */
  lemma {:induction false} NewFileIsChargedExactly(u: Setup, steps: seq<Step>, source: string)
    requires AppendOnly(u, steps, source) && CaughtUp(u, Run(u, steps), source)
    requires var log, key := Run(u, steps).log, (u.hostId, source);
             NoBaseline(log, key) && NothingInherited(log, key) && KeysStayHome(log, key)
    ensures SourceTotal(Run(u, steps).server.usage, (u.hostId, source))
         == PositiveIncrements(Totals(FileReadings(AgentFor(u, source), Run(u, steps).files[source], Origin(u, steps, source))))
  {
    hide *;
    var s, key := Run(u, steps), (u.hostId, source);
    FileToLedger(u, steps, source);
    NoBaselineInFile(u, steps, source);
    LogOfFile(u, steps, source);
    ReadingNotNegative(s.log, key);
    TotalsOf(RawReadings(s.log, key));
  }

  lemma TotalsOf(rs: seq<Reading>)
    ensures |Totals(rs)| == |rs| && (rs != [] ==> Totals(rs)[0] == rs[0].total)
    ensures rs == [] ==> PositiveIncrements(Totals(rs)) == 0
  {
  }

  lemma NoBaselineInFile(u: Setup, steps: seq<Step>, source: string)
    requires AppendOnly(u, steps, source) && CaughtUp(u, Run(u, steps), source)
    requires NoBaseline(Run(u, steps).log, (u.hostId, source))
    ensures FileBaseline(AgentFor(u, source), First(Run(u, steps).files[source], Origin(u, steps, source))) == 0
  {
    hide Run, AppendOnly, Origin, BaselineReadings, Largest;
    BaselinesAlways(u, steps, source);
    NoRawTop(Run(u, steps).log, (u.hostId, source));
  }

  /** Readings of admitted events are not negative. */
  lemma {:induction false} ReadingNotNegative(log: seq<UsageEvent>, s: Source)
    requires forall i :: 0 <= i < |log| ==> ValidUsageEvent(log[i])
    ensures forall i :: 0 <= i < |RawReadings(log, s)| ==> 0 <= RawReadings(log, s)[i].total
  {
    if log != [] {
      var n := |log| - 1;
      assert ValidUsageEvent(log[n]);
      ReadingNotNegative(log[..n], s);
    }
  }
}
