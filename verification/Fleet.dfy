/** Many agents and one server: the delivery protocol of every host, interleaved in any order over the same tables. */
module Fleet {
  import opened Wrappers
  import opened Wire
  import opened TaskRuntime
  import opened Ledger
  import opened Scanner
  import opened Collector
  import opened Pipeline
  import opened Accounting
  import opened Exactness
  import EndToEnd

  // What each agent keeps, and the server's tables; the agents' own copies of the tables are not looked at.
  datatype Fleet = Fleet(agents: map<string, System>, server: Tables)

  datatype Move = Move(host: string, step: Step)

  type Hosts = map<string, Parser>

  function SetupOf(hosts: Hosts, host: string): Setup
    requires host in hosts
  {
    Setup(host, hosts[host])
  }

  /** One agent's step, taken on the tables that all of them share. */
  ghost function Moved(hosts: Hosts, f: Fleet, move: Move): Fleet {
    if move.host in hosts && move.host in f.agents then
      var s := Next(SetupOf(hosts, move.host), f.agents[move.host].(server := f.server), move.step);
      Fleet(f.agents[move.host := s], s.server)
    else f
  }

  ghost function FleetRun(hosts: Hosts, moves: seq<Move>): Fleet {
    if moves == [] then Fleet(map h | h in hosts :: START, EMPTY)
    else Moved(hosts, FleetRun(hosts, moves[..|moves| - 1]), moves[|moves| - 1])
  }

  function AgentOf(f: Fleet, host: string): System { if host in f.agents then f.agents[host] else START }

  /** What one host did. */
  function Own(moves: seq<Move>, host: string): seq<Step> {
    if moves == [] then []
    else Own(moves[..|moves| - 1], host) + if moves[|moves| - 1].host == host then [moves[|moves| - 1].step] else []
  }

  /* ---- Ids name their hosts ---- */

  function HostOf(id: Id): Option<string> {
    match id
    case Raw(_) => None
    case Digest(parts) =>
      if parts == [] then None
      else
        match parts[0]
        case Text(host) => Some(host)
        case Nested(Digest(inner)) => if inner != [] && inner[0].Text? then Some(inner[0].text) else None
        case _ => None
  }

  predicate Homed(e: UsageEvent) { HostOf(e.eventId) == Some(e.hostId) }

  ghost predicate HomedRows(usage: seq<LedgerRow>) {
    forall i :: 0 <= i < |usage| ==> HostOf(usage[i].eventId) == Some(usage[i].hostId)
  }

  lemma EmittedAreHomed(u: Setup, log: seq<UsageEvent>, cursors: map<string, Cursor>, i: nat)
    requires Emitted(u, log, cursors) && i < |log|
    ensures Homed(log[i]) && log[i].hostId == u.hostId
  {
    var e := log[i];
    if Baselined(u, e) {
      var conversation, size :| e.eventId == Digest([Text(u.hostId), Text(e.sourceId), Text(conversation), Text("baseline"), Number(size)]);
    } else {
      assert EmittedBy(u, e.sourceId, e);
      var kind, at, tail :| e.eventId == Digest([Nested(ScanId(u, e.sourceId, e.byteOffset, kind, at, tail)), Number(e.sourceEpoch)]);
    }
  }

  /* ---- What a host can see ---- */

  function RowsOf(usage: seq<LedgerRow>, host: string): seq<LedgerRow> {
    if usage == [] then []
    else RowsOf(usage[..|usage| - 1], host) + if usage[|usage| - 1].hostId == host then [usage[|usage| - 1]] else []
  }

  ghost predicate SameAt<T>(a: map<(string, string), T>, b: map<(string, string), T>, host: string) {
    forall k: (string, string) :: k.0 == host ==> (k in a <==> k in b) && (k in a ==> a[k] == b[k])
  }

  /** The tables agree on everything that belongs to the host. */
  ghost predicate SameFor(host: string, t: Tables, u: Tables) {
    && (forall id :: HostOf(id) == Some(host) ==> (id in t.ingested <==> id in u.ingested))
    && RowsOf(t.usage, host) == RowsOf(u.usage, host)
    && SameAt(t.sources, u.sources, host) && SameAt(t.conversations, u.conversations, host)
    && SameAt(t.sessions, u.sessions, host) && SameAt(t.runtime, u.runtime, host)
  }

  lemma {:induction false} RowsOfHost(usage: seq<LedgerRow>, host: string)
    ensures forall r :: r in RowsOf(usage, host) <==> r in usage && r.hostId == host
  {
    if usage != [] {
      RowsOfHost(usage[..|usage| - 1], host);
      assert usage == usage[..|usage| - 1] + [usage[|usage| - 1]];
    }
  }

  lemma RowsOfSnoc(usage: seq<LedgerRow>, row: LedgerRow, host: string)
    ensures RowsOf(usage + [row], host) == RowsOf(usage, host) + if row.hostId == host then [row] else []
  {
    assert (usage + [row])[..|usage|] == usage;
  }

  lemma {:induction false} TotalOfHost(usage: seq<LedgerRow>, s: Source)
    ensures SourceTotal(RowsOf(usage, s.0), s) == SourceTotal(usage, s)
  {
    if usage != [] {
      var before, row := usage[..|usage| - 1], usage[|usage| - 1];
      TotalOfHost(before, s);
      if row.hostId == s.0 {
        SourceTotalSnoc(RowsOf(before, s.0), row, s);
      } else {
        assert RowsOf(before, s.0) + [] == RowsOf(before, s.0);
      }
    }
  }

  /** A row clashes with rows of its own host only. */
  lemma ClashesAtHome(usage: seq<LedgerRow>, row: LedgerRow)
    requires HomedRows(usage) && HostOf(row.eventId) == Some(row.hostId)
    ensures Clashes(usage, row) <==> exists r :: r in RowsOf(usage, row.hostId) && (r.eventId == row.eventId || r.dedupKey == row.dedupKey)
  {
    RowsOfHost(usage, row.hostId);
    if Clashes(usage, row) {
      var i :| 0 <= i < |usage| &&
        (usage[i].eventId == row.eventId || (usage[i].hostId == row.hostId && usage[i].dedupKey == row.dedupKey));
      assert usage[i] in RowsOf(usage, row.hostId);
    }
  }

  lemma SameClashes(t: seq<LedgerRow>, u: seq<LedgerRow>, row: LedgerRow)
    requires HomedRows(t) && HomedRows(u) && HostOf(row.eventId) == Some(row.hostId) && RowsOf(t, row.hostId) == RowsOf(u, row.hostId)
    ensures Clashes(t, row) <==> Clashes(u, row)
  {
    ClashesAtHome(t, row);
    ClashesAtHome(u, row);
  }

  lemma SameParent(t: Tables, u: Tables, e: UsageEvent)
    requires SameFor(e.hostId, t, u)
    ensures ResolveParent(t.sessions, e) == ResolveParent(u.sessions, e)
  {
    hide RowsOf, LegacyMessageId, NativeTaskId, HasPrefix;
    assert (e.hostId, e.sourceId) in t.sessions <==> (e.hostId, e.sourceId) in u.sessions;
    assert ConversationOf(e) in t.sessions <==> ConversationOf(e) in u.sessions;
  }

  lemma SamePrior(t: Tables, u: Tables, e: UsageEvent)
    requires SameFor(e.hostId, t, u)
    ensures PriorReading(t, e) == PriorReading(u, e)
  {
    hide RowsOf;
    assert SourceOf(e) in t.sources <==> SourceOf(e) in u.sources;
    assert ConversationOf(e) in t.conversations <==> ConversationOf(e) in u.conversations;
    assert (e.hostId, e.parentId) in t.conversations <==> (e.hostId, e.parentId) in u.conversations;
  }

  lemma SameRuntime(t: TaskTable, u: TaskTable, e: UsageEvent, host: string)
    requires SameAt(t, u, host)
    ensures e.hostId == host ==> SameAt(ApplyRuntime(t, e), ApplyRuntime(u, e), host)
    ensures e.hostId != host ==> SameAt(ApplyRuntime(t, e), u, host)
  {
    hide NextRow;
    if e.hostId == host {
      assert TaskOf(e) in t <==> TaskOf(e) in u;
    }
  }

  lemma SameUpdate<T>(a: map<(string, string), T>, b: map<(string, string), T>, k: (string, string), v: T, host: string)
    requires SameAt(a, b, host)
    ensures SameAt(a[k := v], b[k := v], host) && (k.0 != host ==> SameAt(a[k := v], b, host))
  {
  }

  lemma SameSession(t: map<Conversation, Session>, u: map<Conversation, Session>, e: UsageEvent, delta: Tokens)
    requires SameAt(t, u, e.hostId)
    ensures SameAt(AddToSession(t, e, delta), AddToSession(u, e, delta), e.hostId)
  {
    assert ConversationOf(e) in t <==> ConversationOf(e) in u;
  }

  /** What an exact reading does is decided by its own host's rows. */
  lemma ExactSame(t: Tables, u: Tables, e: UsageEvent)
    requires SameFor(e.hostId, t, u) && Homed(e) && HomedRows(t.usage) && HomedRows(u.usage)
    ensures SameFor(e.hostId, ApplyExact(t, e), ApplyExact(u, e))
  {
    hide PriorReading, RowsOf, DedupKey, Clashes, ChargeFor, RowEpoch, AddToSession, SameAt, AdvancesSource, Settle, HomedRows;
    SamePrior(t, u, e);
    var p := PriorReading(t, e);
    var row := RowFor(p, e);
    SameClashes(t.usage, u.usage, row);
    RowsOfSnoc(t.usage, row, e.hostId);
    RowsOfSnoc(u.usage, row, e.hostId);
    SameSession(t.sessions, u.sessions, e, row.delta);
    SameUpdate(t.conversations, u.conversations, ConversationOf(e), Counter(row.epoch, e.counts), e.hostId);
    SameUpdate(t.sources, u.sources, SourceOf(e), Counter(e.sourceEpoch, e.counts), e.hostId);
  }

  lemma ExactElsewhere(t: Tables, e: UsageEvent, host: string)
    requires e.hostId != host
    ensures SameFor(host, ApplyExact(t, e), t)
  {
    hide PriorReading, RowsOf, DedupKey, Clashes, ChargeFor, RowEpoch;
    var row := RowFor(PriorReading(t, e), e);
    RowsOfSnoc(t.usage, row, host);
    assert RowsOf(t.usage, host) + [] == RowsOf(t.usage, host);
  }

  lemma ExactHomes(t: Tables, e: UsageEvent)
    requires HomedRows(t.usage) && Homed(e)
    ensures HomedRows(ApplyExact(t, e).usage)
  {
    hide PriorReading, DedupKey, Clashes, ChargeFor, RowEpoch;
  }

  lemma RaisedSame(t: map<Source, Counter>, u: map<Source, Counter>, e: UsageEvent)
    requires SameAt(t, u, e.hostId)
    ensures SourceOf(e) in t <==> SourceOf(e) in u
    ensures SourceOf(e) in t ==> t[SourceOf(e)] == u[SourceOf(e)]
  {
  }

  lemma BaselineSame(t: Tables, u: Tables, e: UsageEvent)
    requires SameFor(e.hostId, t, u)
    ensures SameFor(e.hostId, ApplyBaseline(t, e), ApplyBaseline(u, e))
  {
    hide RowsOf, SameAt;
    var c, s := ConversationOf(e), SourceOf(e);
    RaisedSame(t.sources, u.sources, e);
    CountedSame(t.conversations, u.conversations, e);
    SameUpdate(t.sources, u.sources, s, Counter(e.sourceEpoch, e.counts), e.hostId);
    SameUpdate(t.sources, u.sources, s, Counter(if s in t.sources then t.sources[s].epoch else 0, e.counts), e.hostId);
    SameUpdate(t.conversations, u.conversations, c, Counter(if c in t.conversations then t.conversations[c].epoch else 0, e.counts), e.hostId);
  }

  lemma CountedSame(t: map<Conversation, Counter>, u: map<Conversation, Counter>, e: UsageEvent)
    requires SameAt(t, u, e.hostId)
    ensures ConversationOf(e) in t <==> ConversationOf(e) in u
    ensures ConversationOf(e) in t ==> t[ConversationOf(e)] == u[ConversationOf(e)]
  {
  }

  lemma TouchSame(t: Tables, u: Tables, e: UsageEvent)
    requires SameFor(e.hostId, t, u)
    ensures SameFor(e.hostId, Touch(t, e), Touch(u, e))
  {
    hide RowsOf;
    assert ConversationOf(e) in t.sessions <==> ConversationOf(e) in u.sessions;
  }

  lemma NotedSame(t: Tables, u: Tables, e: UsageEvent)
    requires SameFor(e.hostId, t, u)
    ensures SameFor(e.hostId, Seen(t, e), Seen(u, e))
  {
    hide RowsOf, ApplyRuntime, SameAt;
    SameRuntime(t.runtime, u.runtime, e, e.hostId);
  }

  /** The tables once an event's id and evidence are noted. */
  function Seen(t: Tables, e: UsageEvent): Tables {
    t.(ingested := t.ingested + {e.eventId}, runtime := ApplyRuntime(t.runtime, e))
  }

  /** An event has the same effect on its own host's part, whatever else the tables hold. */
  lemma ApplySame(t: Tables, u: Tables, event: UsageEvent)
    requires SameFor(event.hostId, t, u) && Homed(event) && HomedRows(t.usage) && HomedRows(u.usage)
    ensures SameFor(event.hostId, Apply(t, event), Apply(u, event))
  {
    hide RowsOf, ApplyRuntime, SameAt, ApplyExact, ApplyBaseline, Touch, HomedRows, ResolveParent;
    SameParent(t, u, event);
    var e := ResolveParent(t.sessions, event);
    NotedSame(t, u, e);
    if event.eventId !in t.ingested {
      match e.kind
      case Baseline => BaselineSame(Seen(t, e), Seen(u, e), e);
      case LiveEstimate => TouchSame(Seen(t, e), Seen(u, e), e);
      case Activity => TouchSame(Seen(t, e), Seen(u, e), e);
      case ExactUsage => ExactSame(Seen(t, e), Seen(u, e), e);
      case _ =>
    }
  }

  lemma SameTrans(host: string, t: Tables, u: Tables, v: Tables)
    requires SameFor(host, t, u) && SameFor(host, u, v)
    ensures SameFor(host, t, v) && SameFor(host, u, t)
  {
    hide RowsOf, SameAt;
    SameAtTrans(host, t.sources, u.sources, v.sources);
    SameAtTrans(host, t.conversations, u.conversations, v.conversations);
    SameAtTrans(host, t.sessions, u.sessions, v.sessions);
    SameAtTrans(host, t.runtime, u.runtime, v.runtime);
  }

  lemma SameAtTrans<T>(host: string, a: map<(string, string), T>, b: map<(string, string), T>, c: map<(string, string), T>)
    requires SameAt(a, b, host) && SameAt(b, c, host)
    ensures SameAt(a, c, host) && SameAt(b, a, host)
  {
  }

  lemma SameSelf(host: string, t: Tables)
    ensures SameFor(host, t, t)
  {
  }

  lemma NotedElsewhere(t: Tables, e: UsageEvent, host: string)
    requires e.hostId != host && Homed(e)
    ensures SameFor(host, Seen(t, e), t)
  {
    hide RowsOf, ApplyRuntime;
    SameRuntime(t.runtime, t.runtime, e, host);
  }

  /** And none on another host's part. */
  lemma ApplyElsewhere(t: Tables, event: UsageEvent, host: string)
    requires event.hostId != host && Homed(event)
    ensures SameFor(host, Apply(t, event), t)
  {
    hide RowsOf, ApplyRuntime, SameAt, ApplyExact, SameFor;
    var e := ResolveParent(t.sessions, event);
    SameSelf(host, t);
    if event.eventId !in t.ingested {
      NotedElsewhere(t, e, host);
      KindElsewhere(Seen(t, e), e, host);
      SameTrans(host, Apply(t, event), Seen(t, e), t);
    }
  }

  lemma BaselineElsewhere(t: Tables, e: UsageEvent, host: string)
    requires e.hostId != host
    ensures SameFor(host, ApplyBaseline(t, e), t)
  {
    hide RowsOf;
  }

  lemma TouchElsewhere(t: Tables, e: UsageEvent, host: string)
    requires e.hostId != host
    ensures SameFor(host, Touch(t, e), t) && SameFor(host, t, t)
  {
    hide RowsOf;
  }

  lemma KindElsewhere(t: Tables, e: UsageEvent, host: string)
    requires e.hostId != host
    ensures SameFor(host, ApplyExact(t, e), t) && SameFor(host, ApplyBaseline(t, e), t) && SameFor(host, Touch(t, e), t) && SameFor(host, t, t)
  {
    hide ApplyExact, ApplyBaseline, Touch, SameFor;
    ExactElsewhere(t, e, host);
    BaselineElsewhere(t, e, host);
    TouchElsewhere(t, e, host);
  }

  lemma ApplyHomes(t: Tables, event: UsageEvent)
    requires HomedRows(t.usage) && Homed(event)
    ensures HomedRows(Apply(t, event).usage)
  {
    hide ApplyRuntime, ApplyExact;
    var e := ResolveParent(t.sessions, event);
    ExactHomes(Seen(t, e), e);
  }

  ghost predicate AllHomed(events: seq<UsageEvent>, host: string) {
    forall i :: 0 <= i < |events| ==> Homed(events[i]) && events[i].hostId == host
  }

  lemma {:induction false} BatchSame(t: Tables, u: Tables, events: seq<UsageEvent>, host: string)
    requires SameFor(host, t, u) && AllHomed(events, host) && HomedRows(t.usage) && HomedRows(u.usage)
    ensures SameFor(host, ApplyAll(t, events), ApplyAll(u, events))
    ensures HomedRows(ApplyAll(t, events).usage) && HomedRows(ApplyAll(u, events).usage)
  {
    hide Apply, SameFor, HomedRows, Homed;
    if events != [] {
      var before, e := events[..|events| - 1], events[|events| - 1];
      BatchSame(t, u, before, host);
      ApplySame(ApplyAll(t, before), ApplyAll(u, before), e);
      ApplyHomes(ApplyAll(t, before), e);
      ApplyHomes(ApplyAll(u, before), e);
    }
  }

  lemma {:induction false} BatchElsewhere(t: Tables, events: seq<UsageEvent>, sender: string, host: string)
    requires AllHomed(events, sender) && sender != host
    ensures SameFor(host, ApplyAll(t, events), t)
  {
    hide Apply, SameFor, Homed;
    SameSelf(host, t);
    if events != [] {
      var before, e := events[..|events| - 1], events[|events| - 1];
      BatchElsewhere(t, before, sender, host);
      ApplyElsewhere(ApplyAll(t, before), e, host);
      SameTrans(host, ApplyAll(t, events), ApplyAll(t, before), t);
    }
  }

  /* ---- Each agent as if it were alone ---- */

  /** Whatever an agent has sent is its own. */
  lemma SentIsHomed(u: Setup, s: System, b: Batch)
    requires Inv(u, s) && b in s.inFlight
    ensures AllHomed(Payload(b), u.hostId)
  {
    hide Holds, DistinctIds, Emitted, Homed;
    assert IsSlice(b, s.log, s.deleted);
    forall i | 0 <= i < |b| ensures Homed(Payload(b)[i]) && Payload(b)[i].hostId == u.hostId {
      EmittedAreHomed(u, s.log, s.cursors, b[0].number + i);
      assert Payload(b)[i] == s.log[b[0].number + i];
    }
  }

  /** Only a delivery looks at the tables. */
  lemma TablesAside(u: Setup, s: System, shared: Tables, step: Step)
    requires !step.Deliver?
    ensures Next(u, s.(server := shared), step) == Next(u, s, step).(server := shared) && Next(u, s, step).server == s.server
  {
  }

  lemma StepShared(u: Setup, s: System, shared: Tables, step: Step)
    requires Inv(u, s) && SameFor(u.hostId, shared, s.server) && HomedRows(shared.usage) && HomedRows(s.server.usage)
    ensures var a, b := Next(u, s.(server := shared), step), Next(u, s, step);
            a.(server := b.server) == b && SameFor(u.hostId, a.server, b.server) && HomedRows(a.server.usage) && HomedRows(b.server.usage)
  {
    hide SameFor, HomedRows, AllHomed, ApplyAll, ValidUsageEvent;
    match step
    case Deliver(b, commits) =>
      if b in s.inFlight {
        SentIsHomed(u, s, b);
        BatchSame(shared, s.server, Payload(b), u.hostId);
      }
    case _ => TablesAside(u, s, shared, step);
  }

  lemma StepElsewhere(u: Setup, s: System, shared: Tables, step: Step, host: string)
    requires Inv(u, s) && u.hostId != host
    ensures SameFor(host, Next(u, s.(server := shared), step).server, shared)
  {
    hide SameFor, AllHomed, ApplyAll, ValidUsageEvent;
    SameSelf(host, shared);
    match step
    case Deliver(b, commits) =>
      if b in s.inFlight {
        SentIsHomed(u, s, b);
        BatchElsewhere(shared, Payload(b), u.hostId, host);
      }
    case _ => TablesAside(u, s, shared, step);
  }

  /** The agent is where it would be alone, and so is its part of the tables. */
  ghost predicate Alike(hosts: Hosts, moves: seq<Move>, host: string)
    requires host in hosts
  {
    var f, lone := FleetRun(hosts, moves), Run(SetupOf(hosts, host), Own(moves, host));
    && f.agents.Keys == hosts.Keys && f.agents[host].(server := lone.server) == lone
    && SameFor(host, f.server, lone.server) && HomedRows(f.server.usage) && HomedRows(lone.server.usage)
  }

  lemma OwnRun(u: Setup, moves: seq<Move>, host: string)
    requires moves != []
    ensures var before, move := moves[..|moves| - 1], moves[|moves| - 1];
            Run(u, Own(moves, host)) == if move.host == host then Next(u, Run(u, Own(before, host)), move.step) else Run(u, Own(before, host))
  {
    hide Next;
    var before, move := moves[..|moves| - 1], moves[|moves| - 1];
    if move.host == host {
      assert Own(moves, host)[..|Own(moves, host)| - 1] == Own(before, host);
    } else {
      assert Own(before, host) + [] == Own(before, host);
    }
  }

  /** Under every interleaving of every host's writes, scans, sends, late and repeated deliveries and deletes, each agent
      runs as if it were alone with the server, and what the server holds of its host is what it would then hold. */
  lemma {:induction false} EachAlone(hosts: Hosts, moves: seq<Move>, host: string)
    requires host in hosts
    ensures Alike(hosts, moves, host)
  {
    hide SameFor, HomedRows, Run, Next;
    if moves == [] {
      StartsAlone(hosts, host);
    } else {
      var before, move := moves[..|moves| - 1], moves[|moves| - 1];
      var u := SetupOf(hosts, host);
      EachAlone(hosts, before, host);
      OwnRun(u, moves, host);
      var f := FleetRun(hosts, before);
      if move.host == host {
        var lone := Run(u, Own(before, host));
        InvAlways(u, Own(before, host));
        StepShared(u, lone, f.server, move.step);
        assert f.agents[host].(server := f.server) == lone.(server := f.server);
      } else if move.host in hosts {
        EachAlone(hosts, before, move.host);
        OtherMoves(hosts, before, move, host);
      }
    }
  }

  lemma StartsAlone(hosts: Hosts, host: string)
    requires host in hosts
    ensures Alike(hosts, [], host)
  {
  }

  lemma OtherMoves(hosts: Hosts, before: seq<Move>, move: Move, host: string)
    requires host in hosts && move.host in hosts && move.host != host
    requires Alike(hosts, before, host) && Alike(hosts, before, move.host)
    ensures var f, g := FleetRun(hosts, before), Moved(hosts, FleetRun(hosts, before), move);
            && g.agents.Keys == f.agents.Keys && g.agents[host] == f.agents[host]
            && HomedRows(g.server.usage) && SameFor(host, g.server, Run(SetupOf(hosts, host), Own(before, host)).server)
  {
    hide SameFor, HomedRows, Run, Next, FleetRun, Own;
    var f, v := FleetRun(hosts, before), SetupOf(hosts, move.host);
    var other, lone := Run(v, Own(before, move.host)), Run(SetupOf(hosts, host), Own(before, host));
    InvAlways(v, Own(before, move.host));
    assert f.agents[move.host].(server := f.server) == other.(server := f.server);
    StepShared(v, other, f.server, move.step);
    StepElsewhere(v, other, f.server, move.step, host);
    SameTrans(host, Next(v, other.(server := f.server), move.step).server, f.server, lone.server);
  }

  /** What a host's file is charged when any number of other hosts share the server: the same as alone. */
  lemma FleetFileToLedger(hosts: Hosts, moves: seq<Move>, host: string, source: string)
    requires host in hosts
    requires EndToEnd.AppendOnly(SetupOf(hosts, host), Own(moves, host), source)
    requires EndToEnd.CaughtUp(SetupOf(hosts, host), AgentOf(FleetRun(hosts, moves), host), source)
    ensures var u, steps, key := SetupOf(hosts, host), Own(moves, host), (host, source);
            var s, origin := AgentOf(FleetRun(hosts, moves), host), EndToEnd.Origin(u, steps, source);
            var a, file := AgentFor(u, source), s.files[source];
            var totals, charged := EndToEnd.Totals(EndToEnd.FileReadings(a, file, origin)), SourceTotal(FleetRun(hosts, moves).server.usage, key);
            var baseline := EndToEnd.FileBaseline(a, EndToEnd.First(file, origin));
            var takenOver := BaselineMap(u, source, EndToEnd.First(file, origin)) != map[];
            && charged <= EndToEnd.PositiveIncrements(totals)
            && (totals == [] ==> charged == 0)
            && (totals != [] && baseline <= totals[0] && (takenOver || NothingInherited(s.log, key)) ==>
                  && charged <= EndToEnd.PositiveIncrements(totals) - baseline
                  && (charged == EndToEnd.PositiveIncrements(totals) - baseline <==> LastKept(s.log, key) && EpochsEndKept(s.log, key))
                  && (KeysStayHome(s.log, key) ==> charged == EndToEnd.PositiveIncrements(totals) - baseline))
  {
    hide FleetRun, Run, Own, SameFor, HomedRows, EndToEnd.AppendOnly, EndToEnd.Origin, SourceTotal, EndToEnd.PositiveIncrements,
      EndToEnd.FileReadings, EndToEnd.FileBaseline, EndToEnd.First, EndToEnd.Totals, BaselineMap, LastKept, EpochsEndKept, KeysStayHome,
      NothingInherited, NextLine;
    var u, steps := SetupOf(hosts, host), Own(moves, host);
    EachAlone(hosts, moves, host);
    SameCharge(hosts, moves, host, source);
    EndToEnd.FileToLedger(u, steps, source);
  }

  lemma SameCharge(hosts: Hosts, moves: seq<Move>, host: string, source: string)
    requires host in hosts && Alike(hosts, moves, host)
    ensures var f, lone := FleetRun(hosts, moves), Run(SetupOf(hosts, host), Own(moves, host));
            SourceTotal(f.server.usage, (host, source)) == SourceTotal(lone.server.usage, (host, source))
  {
    hide FleetRun, Run, Own, RowsOf, SourceTotal;
    var f, lone := FleetRun(hosts, moves), Run(SetupOf(hosts, host), Own(moves, host));
    TotalOfHost(f.server.usage, (host, source));
    TotalOfHost(lone.server.usage, (host, source));
  }
}
