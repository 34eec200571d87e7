/** The server's tables and what one usage event does to them (server.go, applyEvent). */
module Ledger {
  import opened Wrappers
  import opened Wire
  import opened TaskRuntime

  type Source = (string, string)        // host, source file
  type Conversation = (string, string)  // host, conversation

  datatype Counter = Counter(epoch: int, counts: Tokens)
  datatype Session = Session(
    parent: string,
    totals: Tokens,
    status: string,
    live: int,
    lastEvent: Instant,
    lastExact: Option<Instant>)

  // One row of reconciliation: what was estimated while the turn ran, against what the exact reading said.
  datatype Settlement = Settlement(
    conversation: Conversation,
    responseId: string,
    estimated: int,
    exactOutput: int,
    error: int,
    at: Instant)

  // One row of usage_events: what was read, and what was charged for it.
  datatype LedgerRow = LedgerRow(
    eventId: Id,
    dedupKey: Id,
    hostId: string,
    conversationId: string,
    sourceId: string,
    at: Instant,
    raw: Tokens,
    delta: Tokens,
    cacheWriteVisible: bool,
    epoch: int)

  datatype Tables = Tables(
    ingested: set<Id>,
    usage: seq<LedgerRow>,
    sources: map<Source, Counter>,
    conversations: map<Conversation, Counter>,
    sessions: map<Conversation, Session>,
    settlements: seq<Settlement>,
    runtime: TaskTable)

  const EMPTY := Tables({}, [], map[], map[], map[], [], map[])

  function SourceOf(e: UsageEvent): Source { (e.hostId, e.sourceId) }
  function ConversationOf(e: UsageEvent): Conversation { (e.hostId, e.conversationId) }

  /* ---- Which parent an event belongs to ---- */

  predicate HasPrefix(s: string, prefix: string) { prefix <= s }

  predicate LegacyMessageId(id: string) { HasPrefix(id, "msg_") || HasPrefix(id, "ctc_") }

  predicate HexDigit(c: char) { '0' <= c <= '9' || 'a' <= c <= 'f' || 'A' <= c <= 'F' }

  predicate NativeTaskId(id: string) {
    && |id| == 36
    && forall i :: 0 <= i < 36 ==> if i in {8, 13, 18, 23} then id[i] == '-' else HexDigit(id[i])
  }

  /** An explicit parent always stands. Otherwise a legacy message id is filed under the parent its session
      already has, or else under the task its file is named after, provided that task is known. */
  function ResolveParent(sessions: map<Conversation, Session>, e: UsageEvent): (r: UsageEvent)
    ensures r == e.(parentId := r.parentId)
    ensures e.parentId != "" ==> r == e
    ensures r.parentId != e.parentId ==>
              || r.parentId == e.sourceId
              || (ConversationOf(e) in sessions && r.parentId == sessions[ConversationOf(e)].parent)
  {
    var known :=
      if e.parentId == "" && LegacyMessageId(e.conversationId) && NativeTaskId(e.sourceId) then
        if ConversationOf(e) in sessions && sessions[ConversationOf(e)].parent != "" then sessions[ConversationOf(e)].parent
        else if (e.hostId, e.sourceId) in sessions then e.sourceId
        else ""
      else e.parentId;
    if && known == ""
       && (HasPrefix(e.conversationId, "ctco_") || HasPrefix(e.conversationId, "fco_"))
       && e.sourceId != "" && e.sourceId != e.conversationId
    then e.(parentId := e.sourceId)
    else e.(parentId := known)
  }

  /* ---- Exact readings ---- */

  function Charge(now: int, before: int, reset: bool): int {
    if reset then now else if now < before then 0 else now - before
  }

  function DeltaCounts(n: Tokens, o: Tokens, reset: bool): Tokens {
    Tokens(Charge(n.input, o.input, reset), Charge(n.cached, o.cached, reset), Charge(n.cacheWrite, o.cacheWrite, reset),
           Charge(n.output, o.output, reset), Charge(n.reasoning, o.reasoning, reset), Charge(n.total, o.total, reset))
  }

  // The counter an exact reading is measured against; `found` when it is the source's own.
  datatype Prior = Prior(found: bool, epoch: int, counts: Tokens)

  function PriorReading(t: Tables, e: UsageEvent): Prior {
    if SourceOf(e) in t.sources then
      Prior(true, t.sources[SourceOf(e)].epoch, t.sources[SourceOf(e)].counts)
    else if ConversationOf(e) in t.conversations then
      Prior(false, t.conversations[ConversationOf(e)].epoch, t.conversations[ConversationOf(e)].counts)
    else if e.parentId != "" && (e.hostId, e.parentId) in t.conversations then
      Prior(false, 0, t.conversations[(e.hostId, e.parentId)].counts)
    else
      Prior(false, 0, ZERO)
  }

  predicate IsReset(p: Prior, e: UsageEvent) {
    (!p.found && e.counts.total < p.counts.total) || (p.found && e.sourceEpoch > p.epoch)
  }

  function ChargeFor(p: Prior, e: UsageEvent): Tokens {
    if p.found && e.sourceEpoch == p.epoch && e.counts.total < p.counts.total then ZERO
    else DeltaCounts(e.counts, p.counts, IsReset(p, e))
  }

  function RowEpoch(p: Prior, e: UsageEvent): int {
    if IsReset(p, e) then p.epoch + 1 else p.epoch
  }

  function DedupKey(e: UsageEvent, epoch: int): Id {
    var name := if e.responseId != "" then e.responseId else e.turnId;
    if name != "" then Digest([Text("response"), Text(name), Number(e.counts.total)])
    else Digest([Text("counter"), Text(e.conversationId), Number(e.counts.total), Number(epoch)])
  }

  function RowFor(p: Prior, e: UsageEvent): LedgerRow {
    LedgerRow(e.eventId, DedupKey(e, RowEpoch(p, e)), e.hostId, e.conversationId, e.sourceId, e.at,
              e.counts, ChargeFor(p, e), e.cacheWriteVisible, RowEpoch(p, e))
  }

  /** The unique indexes of usage_events: the event id, and the dedup key within a host. */
  predicate Clashes(usage: seq<LedgerRow>, row: LedgerRow) {
    exists i :: 0 <= i < |usage| &&
      (usage[i].eventId == row.eventId || (usage[i].hostId == row.hostId && usage[i].dedupKey == row.dedupKey))
  }

  predicate AdvancesSource(p: Prior, e: UsageEvent) {
    !p.found || IsReset(p, e) || e.counts.total > p.counts.total
  }

  function LiveOf(sessions: map<Conversation, Session>, c: Conversation): int {
    if c in sessions then sessions[c].live else 0
  }

  /** An exact reading settles whatever estimate is outstanding. */
  function Settle(settlements: seq<Settlement>, sessions: map<Conversation, Session>, e: UsageEvent, output: int): seq<Settlement> {
    var estimate := LiveOf(sessions, ConversationOf(e));
    if 0 < estimate then settlements + [Settlement(ConversationOf(e), e.responseId, estimate, output, estimate - output, e.at)]
    else settlements
  }

  function AddToSession(sessions: map<Conversation, Session>, e: UsageEvent, delta: Tokens): map<Conversation, Session> {
    var key := ConversationOf(e);
    var (parent, totals) :=
      if key !in sessions then (e.parentId, delta)
      else (if e.parentId != "" then e.parentId else sessions[key].parent, sessions[key].totals.Plus(delta));
    sessions[key := Session(parent, totals, "EXACT", 0, e.at, Some(e.at))]
  }

  function ApplyExact(t: Tables, e: UsageEvent): Tables {
    var p := PriorReading(t, e);
    var row := RowFor(p, e);
    if Clashes(t.usage, row) then t
    else
      t.(usage := t.usage + [row],
         conversations := t.conversations[ConversationOf(e) := Counter(row.epoch, e.counts)],
         sources := if AdvancesSource(p, e) then t.sources[SourceOf(e) := Counter(e.sourceEpoch, e.counts)] else t.sources,
         settlements := Settle(t.settlements, t.sessions, e, row.delta.output),
         sessions := AddToSession(t.sessions, e, row.delta))
  }

  /* ---- The other kinds ---- */

  /** A baseline replaces the conversation's counter (not its epoch) and raises the source's watermark. */
  function ApplyBaseline(t: Tables, e: UsageEvent): Tables {
    var c, s := ConversationOf(e), SourceOf(e);
    t.(conversations := t.conversations[c := Counter(if c in t.conversations then t.conversations[c].epoch else 0, e.counts)],
       sources :=
         if s !in t.sources then t.sources[s := Counter(e.sourceEpoch, e.counts)]
         else if e.sourceEpoch > t.sources[s].epoch then t.sources[s := Counter(e.sourceEpoch, e.counts)]
         else if e.counts.total > t.sources[s].counts.total then t.sources[s := Counter(t.sources[s].epoch, e.counts)]
         else t.sources)
  }

  /** Live and activity events open the session if need be and say what is known of it; activity also records its
      parent, and a live event adds to the outstanding estimate. */
  function Touch(t: Tables, e: UsageEvent): Tables {
    var c := ConversationOf(e);
    var s := if c in t.sessions then t.sessions[c] else Session(e.parentId, ZERO, "", 0, e.at, None);
    t.(sessions := t.sessions[c :=
         if e.kind.Activity? then s.(parent := if e.parentId != "" then e.parentId else s.parent, status := "LOWER_BOUND", lastEvent := e.at)
         else s.(status := "ESTIMATED_LIVE", live := s.live + e.liveEstimate, lastEvent := e.at)])
  }

  function Apply(t: Tables, event: UsageEvent): Tables {
    if event.eventId in t.ingested then t
    else
      var e := ResolveParent(t.sessions, event);
      var seen := t.(ingested := t.ingested + {e.eventId}, runtime := ApplyRuntime(t.runtime, e));
      match e.kind
      case Baseline => ApplyBaseline(seen, e)
      case LiveEstimate => Touch(seen, e)
      case Activity => Touch(seen, e)
      case ExactUsage => ApplyExact(seen, e)
      case _ => seen
  }

  function ApplyAll(t: Tables, events: seq<UsageEvent>): Tables {
    if events == [] then t else Apply(ApplyAll(t, events[..|events| - 1]), events[|events| - 1])
  }

  /* ---- One upload ---- */

  const BATCH_LIMIT := 256

  /** A batch is applied as a whole or, when it is malformed or any event is foreign or invalid, not at all. */
  function IngestBatch(t: Tables, host: string, events: seq<UsageEvent>): Option<Tables> {
    if host == "" || |events| > BATCH_LIMIT then None
    else if forall i :: 0 <= i < |events| ==> events[i].hostId == host && ValidUsageEvent(events[i]) then Some(ApplyAll(t, events))
    else None
  }
}
