/** The server's ingest path in its own step-by-step form (server.go, task_runtime.go), proved against
    the ledger's transition function. */
module Server {
  import opened Wrappers
  import opened Wire
  import TaskRuntime
  import opened Ledger
  import opened Admission
  import LedgerProofs

  // What a collector reports about itself; `body` is the rest of the report.
  datatype Report = Report(agentEpoch: string, reportSeq: nat, body: string)

  // One upload. `metadata` lists the conversation ids of the accompanying display records.
  datatype Upload = Upload(host: string, events: seq<UsageEvent>, metadata: seq<string>, report: Option<Report>)

  // What the world answers during one upload: whether the token is the host's, whether the database lets the transaction
  // through, when the rate limit is decided, and when the transaction writes.
  datatype World = World(authorised: bool, commits: bool, arrival: Call, at: Instant)

  predicate WellFormed(b: Upload) {
    b.host != "" && |b.events| <= BATCH_LIMIT && |b.metadata| <= 256
  }

  predicate WellNamed(metadata: seq<string>) {
    forall i :: 0 <= i < |metadata| ==> 0 < |metadata[i]| <= 256
  }

  predicate OwnEvents(b: Upload) {
    forall i :: 0 <= i < |b.events| ==> b.events[i].hostId == b.host && ValidUsageEvent(b.events[i])
  }

  /** A report replaces one of another run of the collector, or an earlier one of the same run. */
  predicate Replaces(telemetry: map<string, Report>, host: string, report: Report) {
    host !in telemetry || telemetry[host].agentEpoch != report.agentEpoch || telemetry[host].reportSeq < report.reportSeq
  }

  /** What is kept of a host's reports, given in the order they were committed. */
  function Kept(host: string, reports: seq<Report>): map<string, Report> {
    if reports == [] then map[]
    else
      var before, report := Kept(host, reports[..|reports| - 1]), reports[|reports| - 1];
      if Replaces(before, host, report) then before[host := report] else before
  }

  /** The reports from the k-th on are of one run of the collector, and the one before is not. */
  ghost predicate LastRun(reports: seq<Report>, k: nat) {
    && k < |reports| && (0 < k ==> reports[k - 1].agentEpoch != reports[k].agentEpoch)
    && forall i :: k <= i < |reports| ==> reports[i].agentEpoch == reports[k].agentEpoch
  }

  /** The report that is kept is of the collector's last run, and no other of that run has a larger number; a report that is
      overtaken on its way does not replace a later one. */
  lemma {:induction false} LatestReport(host: string, reports: seq<Report>, k: nat)
    requires LastRun(reports, k)
    ensures host in Kept(host, reports)
            && var report := Kept(host, reports)[host];
               report in reports[k..] && forall i :: k <= i < |reports| ==> reports[i].reportSeq <= report.reportSeq
    decreases |reports|
  {
    var n := |reports| - 1;
    var before := reports[..n];
    assert reports[k..][n - k] == reports[n];
    if k < n {
      LatestReport(host, before, k);
      assert reports[k..] == before[k..] + [reports[n]];
    } else if 0 < n {
      var m := StartOfLast(before);
      LatestReport(host, before, m);
      assert Kept(host, before)[host] in before[m..];
    }
  }

  lemma {:induction false} StartOfLast(reports: seq<Report>) returns (k: nat)
    requires reports != []
    ensures LastRun(reports, k)
  {
    k := |reports| - 1;
    while 0 < k && reports[k - 1].agentEpoch == reports[k].agentEpoch
      invariant k < |reports| && forall i :: k <= i < |reports| ==> reports[i].agentEpoch == reports[k].agentEpoch
    {
      k := k - 1;
    }
  }

  function Times(ingestTimes: map<string, seq<Instant>>, host: string): seq<Instant> {
    if host in ingestTimes then ingestTimes[host] else []
  }

  datatype Response = Response(status: int, accepted: int)

  class MeterServer {
    var ingested: set<Id>
    var usage: seq<LedgerRow>
    var sources: map<Source, Counter>
    var conversations: map<Conversation, Counter>
    var sessions: map<Conversation, Session>
    var settlements: seq<Settlement>
    var runtime: TaskRuntime.TaskTable
    // When each host's recent uploads were admitted, its last report, and when it was last heard of.
    var ingestTimes: map<string, seq<Instant>>
    var telemetry: map<string, Report>
    var lastSeen: map<string, Instant>
    // The hub's counters: data, data that invalidates incremental rebuilds, task evidence.
    var revision: nat
    var fullRevision: nat
    var taskRevision: nat

    ghost function Contents(): Tables
      reads this
    {
      Tables(ingested, usage, sources, conversations, sessions, settlements, runtime)
    }

    constructor ()
      ensures Contents() == EMPTY && revision == fullRevision == taskRevision == 0
    {
      ingested, usage, sources, conversations, sessions, settlements, runtime := {}, [], map[], map[], map[], [], map[];
      ingestTimes, telemetry, lastSeen := map[], map[], map[];
      revision, fullRevision, taskRevision := 0, 0, 0;
    }

    method ApplyRuntime(e: UsageEvent)
      modifies this`runtime
      ensures runtime == TaskRuntime.ApplyRuntime(old(runtime), e)
    {
      var task := (e.hostId, e.conversationId);
      var state, turn, at, exact, estimate := "unknown", "", 0, 0, 0;
      if task in runtime {
        var row := runtime[task];
        state, turn, at, estimate, exact := row.state, row.turn, row.evidenceAt, row.estimate, row.exactAt;
        if state == "" {
          state := "unknown";
        }
      }
      if e.at < at {
        return;
      }
      var newTurn := e.turnId != "" && e.turnId != turn;
      if newTurn {
        estimate := 0;
        turn := e.turnId;
        exact := 0;
      }
      match e.kind {
        case Runtime =>
          state := e.runState;
          if state == "idle" {
            estimate := 0;
          }
        case Activity =>
          state := "running";
          if e.runState == "idle" {
            state := "idle";
            estimate := 0;
          }
        case LiveEstimate =>
          if !newTurn && exact != 0 && e.at <= exact {
            return;
          }
          state := "running";
          estimate := estimate + e.liveEstimate;
        case ExactUsage =>
          estimate := 0;
          exact := e.at;
          if newTurn {
            state := "unknown";
          }
        case _ =>
          return;
      }
      runtime := runtime[task := TaskRuntime.TaskRow(state, turn, e.at, estimate, exact)];
    }

    /** INSERT OR IGNORE under both unique indexes. */
    method InsertUsage(row: LedgerRow) returns (inserted: bool)
      modifies this`usage
      ensures inserted == !Clashes(old(usage), row)
      ensures inserted <==> forall r :: r in old(usage) ==>
                r.eventId != row.eventId && (r.hostId, r.dedupKey) != (row.hostId, row.dedupKey)
      ensures usage == if inserted then old(usage) + [row] else old(usage)
    {
      var i := 0;
      while i < |usage|
        invariant i <= |usage| && usage == old(usage)
        invariant !Clashes(usage[..i], row)
      {
        if usage[i].eventId == row.eventId || (usage[i].hostId == row.hostId && usage[i].dedupKey == row.dedupKey) {
          return false;
        }
        assert forall k :: 0 <= k < i ==> usage[..i][k] == usage[..i + 1][k];
        i := i + 1;
      }
      assert usage[..i] == usage;
      usage := usage + [row];
      return true;
    }

    method ApplyBaseline(e: UsageEvent)
      modifies this`conversations, this`sources
      ensures Contents() == Ledger.ApplyBaseline(old(Contents()), e)
    {
      var c, s := ConversationOf(e), SourceOf(e);
      var conversationEpoch := 0;
      if c in conversations {
        conversationEpoch := conversations[c].epoch;
      }
      conversations := conversations[c := Counter(conversationEpoch, e.counts)];
      if s !in sources {
        sources := sources[s := Counter(e.sourceEpoch, e.counts)];
      } else {
        var stored := sources[s];
        var epoch, counts := stored.epoch, stored.counts;
        if e.sourceEpoch > stored.epoch {
          epoch := e.sourceEpoch;
        }
        if e.counts.total > stored.counts.total || e.sourceEpoch > stored.epoch {
          counts := e.counts;
        }
        sources := sources[s := Counter(epoch, counts)];
      }
    }

    method Touch(e: UsageEvent)
      modifies this`sessions
      ensures Contents() == Ledger.Touch(old(Contents()), e)
    {
      var c := ConversationOf(e);
      if e.kind.Activity? {
        if c !in sessions {
          sessions := sessions[c := Session(e.parentId, ZERO, "LOWER_BOUND", 0, e.at, None)];
        } else {
          var s := sessions[c];
          var parent := if e.parentId == "" then s.parent else e.parentId;
          sessions := sessions[c := Session(parent, s.totals, "LOWER_BOUND", s.live, e.at, s.lastExact)];
        }
      } else {
        if c !in sessions {
          sessions := sessions[c := Session(e.parentId, ZERO, "ESTIMATED_LIVE", e.liveEstimate, e.at, None)];
        } else {
          var s := sessions[c];
          sessions := sessions[c := Session(s.parent, s.totals, "ESTIMATED_LIVE", s.live + e.liveEstimate, e.at, s.lastExact)];
        }
      }
    }

    /** The counter a reading is measured against: the source's own, else the conversation's, else the parent's. */
    method FindPrior(e: UsageEvent) returns (prior: Tokens, epoch: int, sourceFound: bool)
      ensures PriorReading(Contents(), e) == Prior(sourceFound, epoch, prior)
    {
      prior, epoch, sourceFound := ZERO, 0, false;
      if SourceOf(e) in sources {
        epoch, prior, sourceFound := sources[SourceOf(e)].epoch, sources[SourceOf(e)].counts, true;
      } else if ConversationOf(e) in conversations {
        epoch, prior := conversations[ConversationOf(e)].epoch, conversations[ConversationOf(e)].counts;
      } else if e.parentId != "" && (e.hostId, e.parentId) in conversations {
        prior := conversations[(e.hostId, e.parentId)].counts;
      }
    }

    method SettleEstimate(e: UsageEvent, output: int)
      modifies this`settlements
      ensures settlements == Settle(old(settlements), sessions, e, output)
    {
      var estimate := 0;
      if ConversationOf(e) in sessions {
        estimate := sessions[ConversationOf(e)].live;
      }
      if estimate > 0 {
        settlements := settlements + [Settlement(ConversationOf(e), e.responseId, estimate, output, estimate - output, e.at)];
      }
    }

    /** The ledger row of a reading, and whether it moves the source's watermark. */
    method Measure(e: UsageEvent) returns (row: LedgerRow, advances: bool)
      ensures row == RowFor(PriorReading(Contents(), e), e) && advances == AdvancesSource(PriorReading(Contents(), e), e)
    {
      hide PriorReading, DedupKey;
      var prior, epoch, sourceFound := FindPrior(e);
      var reset := (!sourceFound && e.counts.total < prior.total) || (sourceFound && e.sourceEpoch > epoch);
      var delta := DeltaCounts(e.counts, prior, reset);
      if sourceFound && e.sourceEpoch == epoch && e.counts.total < prior.total {
        delta := ZERO;
      }
      if reset {
        epoch := epoch + 1;
      }
      row := LedgerRow(e.eventId, DedupKey(e, epoch), e.hostId, e.conversationId, e.sourceId, e.at, e.counts, delta,
                       e.cacheWriteVisible, epoch);
      advances := !sourceFound || reset || e.counts.total > prior.total;
    }

    method ApplyExact(e: UsageEvent)
      modifies this`usage, this`conversations, this`sources, this`sessions, this`settlements
      ensures Contents() == Ledger.ApplyExact(old(Contents()), e)
    {
      hide PriorReading, Clashes, AddToSession, Settle, RowFor, AdvancesSource;
      var row, advances := Measure(e);
      var inserted := InsertUsage(row);
      if !inserted {
        return;
      }
      conversations := conversations[ConversationOf(e) := Counter(row.epoch, e.counts)];
      if advances {
        sources := sources[SourceOf(e) := Counter(e.sourceEpoch, e.counts)];
      }
      SettleEstimate(e, row.delta.output);
      sessions := AddToSession(sessions, e, row.delta);
    }

    method ApplyEvent(event: UsageEvent)
      modifies this`ingested, this`usage, this`sources, this`conversations, this`sessions, this`settlements, this`runtime
      ensures Contents() == Apply(old(Contents()), event)
    {
      var e := ResolveParent(sessions, event);
      if e.eventId in ingested {
        return;
      }
      ingested := ingested + {e.eventId};
      ApplyRuntime(e);
      match e.kind {
        case Baseline => ApplyBaseline(e);
        case LiveEstimate => Touch(e);
        case Activity => Touch(e);
        case ExactUsage => ApplyExact(e);
        case _ =>
      }
    }

    /** The event loop of one transaction: stops at the first foreign or invalid event. */
    method ApplyBatch(host: string, events: seq<UsageEvent>) returns (ok: bool)
      modifies this`ingested, this`usage, this`sources, this`conversations, this`sessions, this`settlements, this`runtime
      ensures ok <==> forall i :: 0 <= i < |events| ==> events[i].hostId == host && ValidUsageEvent(events[i])
      ensures ok ==> Contents() == ApplyAll(old(Contents()), events)
    {
      var k := 0;
      while k < |events|
        invariant k <= |events|
        invariant Contents() == ApplyAll(old(Contents()), events[..k])
        invariant forall i :: 0 <= i < k ==> events[i].hostId == host && ValidUsageEvent(events[i])
      {
        if events[k].hostId != host || !ValidUsageEvent(events[k]) {
          return false;
        }
        assert events[..k + 1][..k] == events[..k];
        ApplyEvent(events[k]);
        k := k + 1;
      }
      assert events[..k] == events;
      return true;
    }

    /** Keeps the admissions of the last second, and admits when they are fewer than twenty. */
    method IngestAllowed(host: string, call: Call) returns (ok: bool)
      modifies this`ingestTimes
      ensures ok == Admits(Times(old(ingestTimes), host), call)
      ensures ingestTimes == old(ingestTimes)[host := After(Times(old(ingestTimes), host), call)]
    {
      var times, cut := Times(ingestTimes, host), call.now - WINDOW;
      var keep, k := [], 0;
      while k < |times|
        invariant k <= |times| && keep == Recent(times[..k], cut)
      {
        assert times[..k + 1][..k] == times[..k];
        if times[k] > cut {
          keep := keep + [times[k]];
        }
        k := k + 1;
      }
      assert times[..k] == times;
      if |keep| >= LIMIT {
        assert keep + [] == keep;
        ingestTimes := ingestTimes[host := keep];
        return false;
      }
      ingestTimes := ingestTimes[host := keep + [call.stamp]];
      return true;
    }

    /** The last-seen time, and the report unless it is an old one. */
    method NoteAgent(b: Upload, at: Instant)
      modifies this`telemetry, this`lastSeen
      ensures lastSeen == old(lastSeen)[b.host := at]
      ensures telemetry == if b.report.Some? && Replaces(old(telemetry), b.host, b.report.value)
                           then old(telemetry)[b.host := b.report.value] else old(telemetry)
    {
      lastSeen := lastSeen[b.host := at];
      if b.report.Some? {
        var report := b.report.value;
        var replace := true;
        if b.host in telemetry {
          var previous := telemetry[b.host];
          replace := previous.agentEpoch != report.agentEpoch || previous.reportSeq < report.reportSeq;
        }
        if replace {
          telemetry := telemetry[b.host := report];
        }
      }
    }

    /** Everything inside the transaction but the commit: the events, the names in the metadata, the agent's report. */
    method Transact(b: Upload, at: Instant) returns (status: int)
      modifies this`ingested, this`usage, this`sources, this`conversations, this`sessions, this`settlements, this`runtime,
               this`telemetry, this`lastSeen
      ensures status in {200, 403, 500}
      ensures status == 403 <==> !OwnEvents(b)
      ensures status == 200 ==> WellNamed(b.metadata) && Contents() == ApplyAll(old(Contents()), b.events)
      ensures status == 500 ==> !WellNamed(b.metadata)
      ensures status == 200 ==> lastSeen == old(lastSeen)[b.host := at]
      ensures status == 200 ==> telemetry == if b.report.Some? && Replaces(old(telemetry), b.host, b.report.value)
                                             then old(telemetry)[b.host := b.report.value] else old(telemetry)
    {
      hide ApplyAll, ValidUsageEvent, Replaces;
      var applied := ApplyBatch(b.host, b.events);
      if !applied {
        return 403;
      }
      var k := 0;
      while k < |b.metadata|
        invariant k <= |b.metadata| && WellNamed(b.metadata[..k])
      {
        if b.metadata[k] == "" || |b.metadata[k]| > 256 {
          return 500;
        }
        assert forall i :: 0 <= i < k ==> b.metadata[..k + 1][i] == b.metadata[..k][i];
        k := k + 1;
      }
      assert b.metadata[..k] == b.metadata;
      NoteAgent(b, at);
      return 200;
    }

    /** The transaction, rolled back when anything in it fails or it does not commit. */
    method InTransaction(b: Upload, world: World) returns (status: int)
      modifies this`ingested, this`usage, this`sources, this`conversations, this`sessions, this`settlements, this`runtime,
               this`telemetry, this`lastSeen
      ensures status in {200, 403, 500}
      ensures status == 403 <==> !OwnEvents(b)
      ensures status == 200 <==> OwnEvents(b) && WellNamed(b.metadata) && world.commits
      ensures status == 200 ==> Contents() == ApplyAll(old(Contents()), b.events)
      ensures status != 200 ==> Contents() == old(Contents()) && telemetry == old(telemetry) && lastSeen == old(lastSeen)
      ensures status == 200 ==> lastSeen == old(lastSeen)[b.host := world.at]
      ensures status == 200 ==> telemetry == if b.report.Some? && Replaces(old(telemetry), b.host, b.report.value)
                                             then old(telemetry)[b.host := b.report.value] else old(telemetry)
    {
      hide ApplyAll, ValidUsageEvent, Replaces, WellNamed;
      var was := (ingested, usage, sources, conversations, sessions, settlements, runtime, telemetry, lastSeen);
      status := Transact(b, world.at);
      if status == 200 && !world.commits {
        status := 500;
      }
      if status != 200 {
        ingested, usage, sources, conversations, sessions := was.0, was.1, was.2, was.3, was.4;
        settlements, runtime, telemetry, lastSeen := was.5, was.6, was.7, was.8;
      }
    }

    ghost predicate Accepts(b: Upload, world: World)
      reads this
    {
      && IngestBatch(Contents(), b.host, b.events).Some? && |b.metadata| <= 256 && WellNamed(b.metadata)
      && world.authorised && Admits(Times(ingestTimes, b.host), world.arrival) && world.commits
    }

    /** One upload as one transaction. An upload that is not accepted leaves everything as it was, but that it was counted
        against the limit; the data revision moves exactly when the ledger or the metadata did, so a pure replay moves
        nothing but the agent's last-seen time and report. */
    method Ingest(b: Upload, world: World) returns (r: Response)
      modifies this
      ensures r.status == 200 <==> old(Accepts(b, world))
      ensures r.status == 200 ==> r.accepted == |b.events| && Some(Contents()) == IngestBatch(old(Contents()), b.host, b.events)
      ensures r.status != 200 ==> r.accepted == 0 && Contents() == old(Contents())
      ensures r.status == 400 <==> b.host == "" || 256 < |b.events| || 256 < |b.metadata|
      ensures r.status == 401 <==> WellFormed(b) && !world.authorised
      ensures r.status == 429 <==> WellFormed(b) && world.authorised && !Admits(Times(old(ingestTimes), b.host), world.arrival)
      ensures r.status == 403 <==>
                && WellFormed(b) && world.authorised && Admits(Times(old(ingestTimes), b.host), world.arrival) && !OwnEvents(b)
      ensures ingestTimes == if WellFormed(b) && world.authorised
                             then old(ingestTimes)[b.host := After(Times(old(ingestTimes), b.host), world.arrival)]
                             else old(ingestTimes)
      ensures lastSeen == if r.status == 200 then old(lastSeen)[b.host := world.at] else old(lastSeen)
      ensures telemetry == if r.status == 200 && b.report.Some? && Replaces(old(telemetry), b.host, b.report.value)
                           then old(telemetry)[b.host := b.report.value] else old(telemetry)
      ensures revision == old(revision) + (if r.status == 200 && (usage != old(usage) || b.metadata != []) then 1 else 0)
      ensures fullRevision == old(fullRevision) + (if r.status == 200 && b.metadata != [] then 1 else 0)
      ensures taskRevision == old(taskRevision) +
                              (if r.status == 200 && (b.metadata != [] || ingested != old(ingested)) then 1 else 0)
    {
      hide Apply, ApplyAll, ValidUsageEvent, Replaces, Admits, After, Times;
      if !WellFormed(b) {
        return Response(400, 0);
      }
      if !world.authorised {
        return Response(401, 0);
      }
      var admitted := IngestAllowed(b.host, world.arrival);
      if !admitted {
        return Response(429, 0);
      }
      var known, rows := ingested, |usage|;
      var status := InTransaction(b, world);
      if status != 200 {
        return Response(status, 0);
      }
      LedgerProofs.LedgerOnlyGrows(old(Contents()), b.events);
      LedgerProofs.IngestedIds(old(Contents()), b.events);
      if |b.metadata| > 0 {
        revision, fullRevision := revision + 1, fullRevision + 1;
      } else if |usage| != rows {
        revision := revision + 1;
      }
      if ingested != known || |b.metadata| > 0 {
        taskRevision := taskRevision + 1;
      }
      return Response(200, |b.events|);
    }
  }
}
