/** The whole delivery protocol of one agent: files that change, scans that may be cut short, a queue, uploads
    that may be lost, repeated or arrive late, and a server that applies whole batches. */
module Pipeline {
  import opened Wrappers
  import opened Wire
  import opened Ledger
  import opened LedgerProofs
  import opened Scanner
  import opened Collector

  // Who the agent is and how it parses.
  datatype Setup = Setup(hostId: string, parse: Parser)

  type Batch = seq<SpoolRow>

  datatype System = System(
    files: map<string, seq<byte>>,
    cursors: map<string, Cursor>,
    spool: Spool,
    inFlight: set<Batch>,          // every request ever sent; the network may deliver any of them at any time
    outstanding: Option<Batch>,    // the request the uploader is waiting for
    answered: bool,                // whether its acknowledgement has come back
    server: Tables,
    log: seq<UsageEvent>,          // history: everything ever queued, in order
    deleted: nat,                  // history: how much of the log has left the queue
    received: nat)                 // history: how much of the log the server has taken in

  datatype Step =
    | Write(source: string, contents: seq<byte>)
    | Discover(source: string)
    | DiscoverLate(source: string, order: seq<string>)
    | Scan(source: string, cut: nat)
    | Send
    | Deliver(batch: Batch, commits: bool)
    | GiveUp
    | Delete

  const START := System(map[], map[], Spool([], 0), {}, None, false, EMPTY, [], 0, 0)

  function AgentFor(u: Setup, source: string): Agent { Agent(u.hostId, source, u.parse) }

  function Queue(s: System, events: seq<UsageEvent>): System {
    s.(spool := Enqueue(s.spool, events), log := s.log + events)
  }

  function Payload(b: Batch): seq<UsageEvent> {
    seq(|b|, i requires 0 <= i < |b| => b[i].event)
  }

  function BaselineMap(u: Setup, source: string, file: seq<byte>): LastReadings {
    BaselineReadings(AgentFor(u, source), file, 0, FreshContext(source), map[])
  }

  function Max(a: nat, b: nat): nat { if a < b then b else a }

  function TakeIn(s: System, b: Batch, after: Tables): System {
    s.(server := after,
       received := if b == [] then s.received else Max(s.received, b[0].number + |b|),
       answered := s.answered || s.outstanding == Some(b))
  }

  /** One step; a step that is not enabled changes nothing, like a transaction that rolls back. */
  ghost function Next(u: Setup, s: System, step: Step): System {
    match step
    case Write(source, contents) => s.(files := s.files[source := contents])
    case Discover(source) =>
      if source in s.files && source !in s.cursors
      then s.(cursors := s.cursors[source := Discovered(AgentFor(u, source), 0)]) else s
    case DiscoverLate(source, order) =>
      if && source in s.files && source !in s.cursors && !Overlong(s.files[source], 0)
         && Lists(order, BaselineMap(u, source, s.files[source]).Keys)
      then
        var file := s.files[source];
        Queue(s, BaselineEvents(AgentFor(u, source), |file|, BaselineMap(u, source, file), order))
          .(cursors := s.cursors[source := Discovered(AgentFor(u, source), |file|)])
      else s
    case Scan(source, cut) =>
      if source in s.files && source in s.cursors && cut <= |s.files[source]| then
        var file := s.files[source];
        var (c, events) := Consume(AgentFor(u, source), file[..cut], Reopened(s.cursors[source], |file|));
        Queue(s, events).(cursors := s.cursors[source := c])
      else s
    case Send =>
      if s.outstanding.None? && s.spool.rows != [] then
        var b := s.spool.rows[..BatchSize(|s.spool.rows|)];
        s.(inFlight := s.inFlight + {b}, outstanding := Some(b), answered := false)
      else s
    case Deliver(b, commits) =>
      var outcome := IngestBatch(s.server, u.hostId, Payload(b));
      if b in s.inFlight && commits && outcome.Some? then TakeIn(s, b, outcome.value) else s
    case GiveUp => s.(outstanding := None, answered := false)
    case Delete =>
      if s.outstanding.Some? && s.answered then
        s.(spool := s.spool.(rows := WithoutAll(s.spool.rows, s.outstanding.value)), outstanding := None, answered := false,
           deleted := s.deleted + |s.outstanding.value|)
      else s
  }

  function WithoutAll(rows: seq<SpoolRow>, batch: Batch): seq<SpoolRow>
    decreases |batch|
  {
    if batch == [] then rows else WithoutAll(Without(rows, batch[0].number), batch[1..])
  }

  ghost function Run(u: Setup, steps: seq<Step>): System {
    if steps == [] then START else Next(u, Run(u, steps[..|steps| - 1]), steps[|steps| - 1])
  }

  /* ---- The invariant ---- */

  function LogRows(log: seq<UsageEvent>, from: nat, to: nat): seq<SpoolRow>
    requires from <= to <= |log|
  {
    seq(to - from, i requires 0 <= i < to - from => SpoolRow(from + i, log[from + i]))
  }

  ghost predicate DistinctIds(log: seq<UsageEvent>) {
    forall i, j :: 0 <= i < j < |log| ==> log[i].eventId != log[j].eventId
  }

  ghost predicate EmittedBy(u: Setup, source: string, e: UsageEvent) {
    && e.hostId == u.hostId && e.sourceId == source && !e.kind.Baseline? && 0 <= e.sourceEpoch
    && exists kind, at, tail ::
         e.eventId == Digest([Nested(ScanId(u, e.sourceId, e.byteOffset, kind, at, tail)), Number(e.sourceEpoch)])
  }

  /** `e` was emitted by a scan of its source, before the cursor came to where it is. */
  ghost predicate Scanned(u: Setup, e: UsageEvent, c: Cursor) {
    && EmittedBy(u, e.sourceId, e)
    && Before(e.sourceEpoch, e.byteOffset, c.generation, c.offset)
  }

  function ScanId(u: Setup, source: string, offset: int, kind: string, at: Instant, tail: seq<Part>): Id {
    Digest([Text(u.hostId), Text(source), Number(offset), Text(kind), Number(at)] + tail)
  }

  ghost predicate Baselined(u: Setup, e: UsageEvent) {
    && e.kind.Baseline? && e.sourceEpoch == 0
    && exists conversation, size ::
         e.eventId == Digest([Text(u.hostId), Text(e.sourceId), Text(conversation), Text("baseline"), Number(size)])
  }

  ghost predicate Emitted(u: Setup, log: seq<UsageEvent>, cursors: map<string, Cursor>) {
    forall i :: 0 <= i < |log| ==>
      && log[i].hostId == u.hostId && log[i].sourceId in cursors
      && (Baselined(u, log[i]) || Scanned(u, log[i], cursors[log[i].sourceId]))
  }

  ghost predicate IsSlice(b: Batch, log: seq<UsageEvent>, deleted: nat) {
    b != [] && b[0].number <= deleted && b[0].number + |b| <= |log| && b == LogRows(log, b[0].number, b[0].number + |b|)
  }

  /** What the server holds. */
  ghost predicate Holds(server: Tables, log: seq<UsageEvent>, received: nat) {
    && received <= |log|
    && server == ApplyAll(EMPTY, log[..received])
    && (forall i :: 0 <= i < received ==> ValidUsageEvent(log[i]))
  }

  ghost predicate Inv(u: Setup, s: System) {
    && s.deleted <= s.received
    && Holds(s.server, s.log, s.received)
    && s.spool == Spool(LogRows(s.log, s.deleted, |s.log|), |s.log|)
    && DistinctIds(s.log)
    && Emitted(u, s.log, s.cursors)
    && (forall b :: b in s.inFlight ==> IsSlice(b, s.log, s.deleted))
    && (s.outstanding.Some? ==> s.outstanding.value in s.inFlight && s.outstanding.value[0].number == s.deleted)
    && (s.answered ==> s.outstanding.Some? && s.deleted + |s.outstanding.value| <= s.received)
  }

  /* ---- Queueing ---- */

  /** Events whose ids are new are all queued, in order. */
  lemma {:induction false} EnqueueFresh(s: Spool, log: seq<UsageEvent>, deleted: nat, events: seq<UsageEvent>)
    requires deleted <= |log| && s == Spool(LogRows(log, deleted, |log|), |log|)
    requires DistinctIds(log + events)
    ensures Enqueue(s, events) == Spool(LogRows(log + events, deleted, |log + events|), |log + events|)
  {
    if events == [] {
      assert log + events == log;
    } else {
      var n := |events| - 1;
      var shorter := log + events[..n];
      assert DistinctIds(shorter) by {
        assert forall i :: 0 <= i < |shorter| ==> shorter[i] == (log + events)[i];
      }
      EnqueueFresh(s, log, deleted, events[..n]);
      var before := Enqueue(s, events[..n]);
      assert (log + events)[|shorter|] == events[n];
      forall i | 0 <= i < |before.rows| ensures before.rows[i].event.eventId != events[n].eventId {
        assert before.rows[i].event == (log + events)[deleted + i];
      }
      assert LogRows(log + events, deleted, |log + events|) == LogRows(shorter, deleted, |shorter|) + [SpoolRow(|shorter|, events[n])];
    }
  }

  lemma QueueKeepsInv(u: Setup, s: System, events: seq<UsageEvent>, cursors: map<string, Cursor>)
    requires Inv(u, s)
    requires DistinctIds(s.log + events) && Emitted(u, s.log + events, cursors)
    ensures Inv(u, Queue(s, events).(cursors := cursors))
  {
    EnqueueFresh(s.spool, s.log, s.deleted, events);
    var longer := s.log + events;
    assert longer[..s.received] == s.log[..s.received];
    forall b: Batch | b in s.inFlight ensures IsSlice(b, longer, s.deleted) {
      assert LogRows(longer, b[0].number, b[0].number + |b|) == LogRows(s.log, b[0].number, b[0].number + |b|);
    }
  }

  lemma EventIdOf(u: Setup, source: string, p: Parsed, offset: nat, generation: nat)
    ensures EventFor(AgentFor(u, source), p, offset, generation).eventId
         == Digest([Nested(ScanId(u, source, offset, KindName(p.kind), p.at, p.tail)), Number(generation)])
  {
  }

  lemma {:induction false} ScanEmits(u: Setup, source: string, file: seq<byte>, c: Cursor)
    ensures forall i :: 0 <= i < |Consume(AgentFor(u, source), file, c).1| ==>
              EmittedBy(u, source, Consume(AgentFor(u, source), file, c).1[i])
    decreases |file| - c.offset
  {
    var a := AgentFor(u, source);
    var step := NextLine(a, file, c);
    if step.Some? {
      ScanEmits(u, source, file, step.value.0);
      LineEmits(u, source, c, file[c.offset..LineEnd(file, c.offset).value]);
    }
  }

  lemma LineEmits(u: Setup, source: string, c: Cursor, line: seq<byte>)
    ensures forall i :: 0 <= i < |StepLine(AgentFor(u, source), c, line).1| ==>
              EmittedBy(u, source, StepLine(AgentFor(u, source), c, line).1[i])
  {
    var a := AgentFor(u, source);
    var (context, found) := ParseRecord(a, c.context, Trim(line), c.offset);
    if found.Some? {
      var next := StepLine(a, c, line).0;
      EventIdOf(u, source, found.value, c.offset, next.generation);
    }
  }

  ghost predicate Named(u: Setup, e: UsageEvent) {
    Baselined(u, e) || EmittedBy(u, e.sourceId, e)
  }

  /** An event id gives away its source and, when a scan emitted it, its offset and epoch. */
  lemma IdsApart(u: Setup, e: UsageEvent, f: UsageEvent)
    requires Named(u, e) && Named(u, f)
    ensures e.eventId == f.eventId ==> e.sourceId == f.sourceId
    ensures e.eventId == f.eventId && EmittedBy(u, f.sourceId, f) ==>
              e.byteOffset == f.byteOffset && e.sourceEpoch == f.sourceEpoch && !Baselined(u, e)
  {
    if EmittedBy(u, f.sourceId, f) {
      var kf, af, tf :| f.eventId == Digest([Nested(ScanId(u, f.sourceId, f.byteOffset, kf, af, tf)), Number(f.sourceEpoch)]);
      if EmittedBy(u, e.sourceId, e) {
        var ke, ae, te :| e.eventId == Digest([Nested(ScanId(u, e.sourceId, e.byteOffset, ke, ae, te)), Number(e.sourceEpoch)]);
        ScanIdFields(u, e.sourceId, e.byteOffset, ke, ae, te);
        ScanIdFields(u, f.sourceId, f.byteOffset, kf, af, tf);
        assert e.eventId.parts[0].id == ScanId(u, e.sourceId, e.byteOffset, ke, ae, te) && e.eventId.parts[1] == Number(e.sourceEpoch);
        assert f.eventId.parts[0].id == ScanId(u, f.sourceId, f.byteOffset, kf, af, tf) && f.eventId.parts[1] == Number(f.sourceEpoch);
      }
    } else if Baselined(u, e) {
      assert e.eventId.parts[1] == Text(e.sourceId) && f.eventId.parts[1] == Text(f.sourceId);
    }
  }

  lemma ScanIdFields(u: Setup, source: string, offset: int, kind: string, at: Instant, tail: seq<Part>)
    ensures var parts := ScanId(u, source, offset, kind, at, tail).parts;
            5 <= |parts| && parts[1] == Text(source) && parts[2] == Number(offset)
  {
  }

  lemma ScanKeepsInv(u: Setup, s: System, source: string, cut: nat)
    requires Inv(u, s)
    requires source in s.files && source in s.cursors && cut <= |s.files[source]|
    ensures Inv(u, Next(u, s, Scan(source, cut)))
  {
    var file := s.files[source];
    var from := Reopened(s.cursors[source], |file|);
    var (c, events) := Consume(AgentFor(u, source), file[..cut], from);
    ScanEmits(u, source, file[..cut], from);
    ScanClimbs(AgentFor(u, source), file[..cut], from);
    ScanGrows(u, s.log, s.cursors, source, |file|, c, events);
    QueueKeepsInv(u, s, events, s.cursors[source := c]);
  }

  /** What a scan emits is new to the log, and was emitted before the place the cursor comes to. */
  lemma ScanGrows(u: Setup, log: seq<UsageEvent>, cursors: map<string, Cursor>, source: string, size: nat, c: Cursor,
                  events: seq<UsageEvent>)
    requires DistinctIds(log) && Emitted(u, log, cursors) && source in cursors
    requires Climbing(events, Reopened(cursors[source], size), c)
    requires forall i :: 0 <= i < |events| ==> EmittedBy(u, source, events[i])
    ensures Emitted(u, log + events, cursors[source := c]) && DistinctIds(log + events)
  {
    hide EmittedBy, Baselined;
    var longer := log + events;
    forall i | 0 <= i < |longer|
      ensures longer[i].hostId == u.hostId && longer[i].sourceId in cursors[source := c]
      ensures Baselined(u, longer[i]) || Scanned(u, longer[i], cursors[source := c][longer[i].sourceId])
    {
      if i < |log| {
        assert longer[i] == log[i];
      } else {
        EmittedFrom(u, source, events[i - |log|]);
      }
    }
    forall i, j | 0 <= i < j < |longer| ensures longer[i].eventId != longer[j].eventId {
      if |log| <= j {
        EmittedFrom(u, source, longer[j]);
        assert i < |log| ==> longer[i] == log[i];
        assert Named(u, longer[i]);
        IdsApart(u, longer[i], longer[j]);
      } else {
        assert longer[i] == log[i] && longer[j] == log[j];
      }
    }
  }

  lemma EmittedFrom(u: Setup, source: string, e: UsageEvent)
    requires EmittedBy(u, source, e)
    ensures e.hostId == u.hostId && e.sourceId == source && EmittedBy(u, e.sourceId, e)
  {
  }

  lemma DiscoverKeepsInv(u: Setup, s: System, source: string, events: seq<UsageEvent>, c: Cursor)
    requires Inv(u, s) && source !in s.cursors
    requires forall i :: 0 <= i < |events| ==> events[i].hostId == u.hostId && events[i].sourceId == source && Baselined(u, events[i])
    requires DistinctIds(events)
    ensures Inv(u, Queue(s, events).(cursors := s.cursors[source := c]))
  {
    var longer := s.log + events;
    forall i, j | 0 <= i < j < |longer| ensures longer[i].eventId != longer[j].eventId {
      if i < |s.log| <= j {
        assert longer[i] == s.log[i] && longer[j] == events[j - |s.log|];
        assert Named(u, longer[i]) && Named(u, longer[j]);
        IdsApart(u, longer[i], longer[j]);
      } else if j < |s.log| {
        assert longer[i] == s.log[i] && longer[j] == s.log[j];
      } else {
        assert longer[i] == events[i - |s.log|] && longer[j] == events[j - |s.log|];
      }
    }
    QueueKeepsInv(u, s, events, s.cursors[source := c]);
  }

  lemma BaselinesAreBaselined(u: Setup, source: string, size: nat, last: LastReadings, order: seq<string>)
    requires Lists(order, last.Keys)
    ensures var events := BaselineEvents(AgentFor(u, source), size, last, order);
            DistinctIds(events) &&
            forall i :: 0 <= i < |events| ==> events[i].hostId == u.hostId && events[i].sourceId == source && Baselined(u, events[i])
  {
    var events := BaselineEvents(AgentFor(u, source), size, last, order);
    forall i | 0 <= i < |events|
      ensures events[i].eventId == Digest([Text(u.hostId), Text(source), Text(order[i]), Text("baseline"), Number(size)])
      ensures events[i].hostId == u.hostId && events[i].sourceId == source && Baselined(u, events[i])
    {
    }
    forall i, j | 0 <= i < j < |events| ensures events[i].eventId != events[j].eventId {
      assert events[i].eventId.parts[2] == Text(order[i]) && events[j].eventId.parts[2] == Text(order[j]);
    }
  }

  /* ---- Delivering ---- */

  lemma SliceIds(log: seq<UsageEvent>, from: nat, to: nat, received: nat)
    requires from <= to <= received <= |log|
    ensures Ids(log[from..to]) <= Ids(log[..received])
  {
    forall id | id in Ids(log[from..to]) ensures id in Ids(log[..received]) {
      var i :| 0 <= i < to - from && log[from..to][i].eventId == id;
      assert log[..received][from + i].eventId == id;
    }
  }

  /** A slice of the log that starts within what the server has, delivered again or for the first time, takes the
      server exactly to the slice's end — or leaves it where it is. */
  lemma DeliverSlice(log: seq<UsageEvent>, from: nat, to: nat, received: nat)
    requires from <= to <= |log| && from <= received <= |log|
    ensures ApplyAll(ApplyAll(EMPTY, log[..received]), log[from..to]) == ApplyAll(EMPTY, log[..Max(received, to)])
  {
    hide Apply;
    var t := ApplyAll(EMPTY, log[..received]);
    IngestedIds(EMPTY, log[..received]);
    if to <= received {
      SliceIds(log, from, to, received);
      ReplayIsIgnored(t, log[from..to]);
    } else {
      SliceIds(log, from, received, received);
      ReplayIsIgnored(t, log[from..received]);
      assert log[from..to] == log[from..received] + log[received..to];
      ApplyAllConcat(t, log[from..received], log[received..to]);
      assert log[..to] == log[..received] + log[received..to];
      ApplyAllConcat(EMPTY, log[..received], log[received..to]);
    }
  }

  lemma DeliverHolds(u: Setup, s: System, b: Batch)
    requires Holds(s.server, s.log, s.received) && IsSlice(b, s.log, s.received)
    requires IngestBatch(s.server, u.hostId, Payload(b)).Some?
    ensures Holds(IngestBatch(s.server, u.hostId, Payload(b)).value, s.log, Max(s.received, b[0].number + |b|))
  {
    hide Apply, ApplyAll, ValidUsageEvent;
    var from, to := b[0].number, b[0].number + |b|;
    assert Payload(b) == s.log[from..to];
    DeliverSlice(s.log, from, to, s.received);
    forall i | 0 <= i < Max(s.received, to) ensures ValidUsageEvent(s.log[i]) {
      if s.received <= i {
        assert s.log[i] == Payload(b)[i - from];
      }
    }
  }

  /* ---- Deleting ---- */

  lemma {:induction false} WithoutSlice(log: seq<UsageEvent>, from: nat, to: nat)
    requires from <= to <= |log|
    ensures WithoutAll(LogRows(log, from, |log|), LogRows(log, from, to)) == LogRows(log, to, |log|)
    decreases |log| - from
  {
    if from < to {
      var rows, batch := LogRows(log, from, |log|), LogRows(log, from, to);
      assert rows[1..] == LogRows(log, from + 1, |log|) && batch[1..] == LogRows(log, from + 1, to);
      assert rows[0].number == batch[0].number == from;
      WithoutAbsent(rows[1..], from);
      assert Without(rows, from) == rows[1..];
      WithoutSlice(log, from + 1, to);
    }
  }

  lemma SendKeepsInv(u: Setup, s: System)
    requires Inv(u, s)
    ensures Inv(u, Next(u, s, Send))
  {
    hide ApplyAll, Emitted, DistinctIds;
    if s.outstanding.None? && s.spool.rows != [] {
      var b := s.spool.rows[..BatchSize(|s.spool.rows|)];
      assert b == LogRows(s.log, s.deleted, s.deleted + |b|);
      assert IsSlice(b, s.log, s.deleted);
    }
  }

  lemma TakeInKeepsInv(u: Setup, s: System, b: Batch, after: Tables)
    requires Inv(u, s) && b in s.inFlight && b != []
    requires Holds(after, s.log, Max(s.received, b[0].number + |b|))
    ensures Inv(u, TakeIn(s, b, after))
  {
  }

  lemma {:induction false} DeliverKeepsInv(u: Setup, s: System, b: Batch, commits: bool)
    requires Inv(u, s)
    ensures Inv(u, Next(u, s, Deliver(b, commits)))
  {
    var outcome := IngestBatch(s.server, u.hostId, Payload(b));
    if b in s.inFlight && commits && outcome.Some? {
      assert IsSlice(b, s.log, s.deleted);
      DeliverHolds(u, s, b);
      TakeInKeepsInv(u, s, b, outcome.value);
    }
  }

  lemma DeleteKeepsInv(u: Setup, s: System)
    requires Inv(u, s)
    ensures Inv(u, Next(u, s, Delete))
  {
    hide Emitted, Holds, DistinctIds;
    if s.outstanding.Some? && s.answered {
      var b := s.outstanding.value;
      assert IsSlice(b, s.log, s.deleted);
      WithoutSlice(s.log, s.deleted, s.deleted + |b|);
      forall other: Batch | other in s.inFlight ensures IsSlice(other, s.log, s.deleted + |b|) {
        assert IsSlice(other, s.log, s.deleted);
      }
    }
  }

  lemma DiscoverLateKeepsInv(u: Setup, s: System, source: string, order: seq<string>)
    requires Inv(u, s)
    ensures Inv(u, Next(u, s, DiscoverLate(source, order)))
  {
    if source in s.files && source !in s.cursors {
      var last, size := BaselineMap(u, source, s.files[source]), |s.files[source]|;
      if Lists(order, last.Keys) {
        BaselinesAreBaselined(u, source, size, last, order);
        DiscoverKeepsInv(u, s, source, BaselineEvents(AgentFor(u, source), size, last, order), Discovered(AgentFor(u, source), size));
      }
    }
  }

  lemma NextKeepsInv(u: Setup, s: System, step: Step)
    requires Inv(u, s)
    ensures Inv(u, Next(u, s, step))
  {
    match step
    case Write(_, _) =>
    case Discover(source) =>
      if source in s.files && source !in s.cursors {
        DiscoverKeepsInv(u, s, source, [], Discovered(AgentFor(u, source), 0));
        assert s.log + [] == s.log && Enqueue(s.spool, []) == s.spool;
      }
    case DiscoverLate(source, order) => DiscoverLateKeepsInv(u, s, source, order);
    case Scan(source, cut) =>
      if source in s.files && source in s.cursors && cut <= |s.files[source]| {
        ScanKeepsInv(u, s, source, cut);
      }
    case Send => SendKeepsInv(u, s);
    case Deliver(b, commits) => DeliverKeepsInv(u, s, b, commits);
    case GiveUp =>
    case Delete => DeleteKeepsInv(u, s);
  }

  lemma {:induction false} InvAlways(u: Setup, steps: seq<Step>)
    ensures Inv(u, Run(u, steps))
  {
    if steps != [] {
      InvAlways(u, steps[..|steps| - 1]);
      NextKeepsInv(u, Run(u, steps[..|steps| - 1]), steps[|steps| - 1]);
    }
  }

  /** Exactly once, over every interleaving: the queue is what was emitted and not yet released, the server has
      taken in a prefix of what was emitted, in order and each event once, and nothing is released before the
      server has it. When the queue is empty the server holds everything. */
  lemma ExactlyOnce(u: Setup, steps: seq<Step>)
    ensures var s := Run(u, steps);
            && s.deleted <= s.received <= |s.log|
            && DistinctIds(s.log)
            && s.spool.rows == LogRows(s.log, s.deleted, |s.log|)
            && s.server == ApplyAll(EMPTY, s.log[..s.received])
            && (s.spool.rows == [] ==> s.server == ApplyAll(EMPTY, s.log))
  {
    InvAlways(u, steps);
    var s := Run(u, steps);
    Drained(s.log, s.deleted, s.received);
  }

  lemma Drained(log: seq<UsageEvent>, deleted: nat, received: nat)
    requires deleted <= received <= |log|
    ensures LogRows(log, deleted, |log|) == [] ==> log[..received] == log
  {
  }
}
