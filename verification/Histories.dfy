/** What the server's rows say in terms of the events that were uploaded: parents, sessions, conversation counters, ledger
    rows and their keys (server.go, applyEvent). */
module Histories {
  import opened Wrappers
  import opened Wire
  import opened TaskRuntime
  import opened Ledger
  import opened LedgerProofs

  /* ---- Parents ---- */

  function Parent(sessions: map<Conversation, Session>, c: Conversation): string {
    if c in sessions then sessions[c].parent else ""
  }

  ghost predicate Hex(text: string) { forall i :: 0 <= i < |text| ==> HexDigit(text[i]) }

  /** A task id is five runs of hex digits, of eight, four, four, four and twelve, joined by dashes. */
  lemma TaskIdShape(id: string)
    ensures NativeTaskId(id) <==> |id| == 36 && id[8] == id[13] == id[18] == id[23] == '-'
                                  && Hex(id[..8]) && Hex(id[9..13]) && Hex(id[14..18]) && Hex(id[19..23]) && Hex(id[24..])
  {
    if |id| == 36 && Hex(id[..8]) && Hex(id[9..13]) && Hex(id[14..18]) && Hex(id[19..23]) && Hex(id[24..]) {
      forall i | 0 <= i < 36 && i !in {8, 13, 18, 23} ensures HexDigit(id[i]) {
        assert i < 8 ==> id[i] == id[..8][i];
        assert 8 < i < 13 ==> id[i] == id[9..13][i - 9];
        assert 13 < i < 18 ==> id[i] == id[14..18][i - 14];
        assert 18 < i < 23 ==> id[i] == id[19..23][i - 19];
        assert 23 < i ==> id[i] == id[24..][i - 24];
      }
    }
  }

  /** A stated parent stands. Otherwise a message or context id in a task's own file belongs to the parent its session has, or
      else to that task if its session exists; a call id belongs to the file's task unless it is that task; and any other
      conversation has no parent. */
  lemma ParentDecided(sessions: map<Conversation, Session>, e: UsageEvent)
    ensures var parent := ResolveParent(sessions, e).parentId;
            var begins := (prefix: string) => prefix <= e.conversationId;
            if e.parentId != "" then parent == e.parentId
            else if begins("msg_") || begins("ctc_") then
              parent == (if !NativeTaskId(e.sourceId) then ""
                         else if Parent(sessions, ConversationOf(e)) != "" then Parent(sessions, ConversationOf(e))
                         else if (e.hostId, e.sourceId) in sessions then e.sourceId
                         else "")
            else if begins("ctco_") || begins("fco_") then
              parent == (if e.sourceId == e.conversationId then "" else e.sourceId)
            else parent == ""
  {
    var id := e.conversationId;
    if "ctco_" <= id { assert id[0] == 'c' && id[3] == 'o'; }
    if "fco_" <= id { assert id[0] == 'f'; }
    if "msg_" <= id { assert id[0] == 'm'; }
    if "ctc_" <= id { assert id[0] == 'c' && id[3] == '_'; }
  }

  /* ---- Ledger rows ---- */

  /** Two readings of a host share a dedup key exactly if both name the same response (or, without one, turn), or neither names
      anything and they are of one conversation and epoch — and in either case show the same total. */
  lemma SameKeyExactly(e: UsageEvent, m: int, f: UsageEvent, n: int)
    ensures var named := (x: UsageEvent) => if x.responseId == "" then x.turnId else x.responseId;
            DedupKey(e, m) == DedupKey(f, n) <==>
              && e.counts.total == f.counts.total && named(e) == named(f)
              && (named(e) == "" ==> e.conversationId == f.conversationId && m == n)
  {
    var a, b := DedupKey(e, m), DedupKey(f, n);
    if a == b {
      assert a.parts[0] == b.parts[0] && a.parts[1] == b.parts[1] && a.parts[2] == b.parts[2];
      assert |a.parts| == |b.parts|;
      if |a.parts| == 4 {
        assert a.parts[3] == b.parts[3];
      }
    }
  }

  /** The first reading of a source is measured against the conversation's counter, wherever it was read before; a conversation
      not heard of yet continues its parent's counter, or starts from nothing. A total below that is a restart: all of it
      is charged, under the next epoch. */
  lemma FirstReadingOfSource(t: Tables, e: UsageEvent)
    requires SourceOf(e) !in t.sources
    ensures var known := if ConversationOf(e) in t.conversations then t.conversations[ConversationOf(e)].counts
                         else if e.parentId != "" && (e.hostId, e.parentId) in t.conversations then t.conversations[(e.hostId, e.parentId)].counts
                         else ZERO;
            var epoch := if ConversationOf(e) in t.conversations then t.conversations[ConversationOf(e)].epoch else 0;
            var row := RowFor(PriorReading(t, e), e);
            if e.counts.total < known.total then row.delta == e.counts && row.epoch == epoch + 1
            else row.epoch == epoch && row.delta.total == e.counts.total - known.total
                 && row.delta.output == (if known.output <= e.counts.output then e.counts.output - known.output else 0)
                 && AdvancesSource(PriorReading(t, e), e)
  {
  }

  /** A later reading of a source is filed under the epoch it was read in, as long as epochs advance one at a time; whatever
      the gap, it is filed one above the stored one exactly if its epoch is above that. */
  lemma LaterReadingOfSource(t: Tables, e: UsageEvent)
    requires SourceOf(e) in t.sources
    ensures var epoch, row := t.sources[SourceOf(e)].epoch, RowFor(PriorReading(t, e), e);
            && (row.epoch == epoch + 1 <==> epoch < e.sourceEpoch) && (row.epoch == epoch <==> e.sourceEpoch <= epoch)
            && (e.sourceEpoch in {epoch, epoch + 1} ==> row.epoch == e.sourceEpoch)
            && (epoch < e.sourceEpoch ==> row.delta == e.counts)
  {
  }

  /** A ledger row says what was read, where and when. */
  predicate RowReads(row: LedgerRow, e: UsageEvent) {
    && e.kind.ExactUsage? && row.eventId == e.eventId
    && row.hostId == e.hostId && row.conversationId == e.conversationId && row.sourceId == e.sourceId
    && row.at == e.at && row.raw == e.counts && row.cacheWriteVisible == e.cacheWriteVisible
  }

  /** Each row comes from one uploaded reading, in the order of upload, with that reading's dedup key under the row's epoch. */
  lemma {:induction false} RowsSayWhatWasRead(events: seq<UsageEvent>, i: nat)
    requires i < |ApplyAll(EMPTY, events).usage|
    ensures var row := ApplyAll(EMPTY, events).usage[i];
            exists j :: 0 <= j < |events| && RowReads(row, events[j]) && row.dedupKey == DedupKey(events[j], row.epoch)
  {
    hide DedupKey, PriorReading, ChargeFor, RowEpoch, Clashes, ResolveParent, ApplyRuntime;
    var before, n := events[..|events| - 1], |events| - 1;
    var t := ApplyAll(EMPTY, before);
    if i < |t.usage| {
      RowsSayWhatWasRead(before, i);
      OneRowAtMost(t, events[n]);
      var j :| 0 <= j < n && RowReads(t.usage[i], before[j]) && t.usage[i].dedupKey == DedupKey(before[j], t.usage[i].epoch);
      assert before[j] == events[j];
    } else {
      NewRowReads(t, events[n]);
      assert RowReads(ApplyAll(EMPTY, events).usage[i], events[n]);
    }
  }

  lemma NewRowReads(t: Tables, event: UsageEvent)
    requires |t.usage| < |Apply(t, event).usage|
    ensures var row := Apply(t, event).usage[|t.usage|];
            RowReads(row, event) && row.dedupKey == DedupKey(event, row.epoch) && |Apply(t, event).usage| == |t.usage| + 1
  {
    hide PriorReading, ChargeFor, RowEpoch, Clashes, ApplyRuntime;
  }

  /* ---- Settlements ---- */

  /** A settlement says which reading settled the estimate, and how far off it was from the output that reading was charged. */
  predicate Settles(x: Settlement, e: UsageEvent, row: LedgerRow) {
    && e.kind.ExactUsage? && row.eventId == e.eventId
    && x.conversation == ConversationOf(e) && x.responseId == e.responseId && x.at == e.at
    && x.exactOutput == row.delta.output && x.error == x.estimated - row.delta.output
  }

  ghost predicate Settled(x: Settlement, events: seq<UsageEvent>, usage: seq<LedgerRow>) {
    exists e, row :: e in events && row in usage && Settles(x, e, row)
  }

  lemma NewSettlement(t: Tables, event: UsageEvent)
    ensures var u := Apply(t, event);
            u.settlements == t.settlements
            || (u.settlements[..|u.settlements| - 1] == t.settlements && u.usage != []
                && u.settlements[|u.settlements| - 1].estimated == LiveOf(t.sessions, ConversationOf(event))
                && Settles(u.settlements[|u.settlements| - 1], event, u.usage[|u.usage| - 1]))
  {
    hide PriorReading, ChargeFor, RowEpoch, DedupKey, Clashes, ApplyRuntime, AddToSession, AdvancesSource;
  }

  /** Over every run: each settlement was made by an uploaded reading that entered the ledger, against the output it was charged. */
  lemma {:induction false} SettlementsSay(events: seq<UsageEvent>, i: nat)
    requires i < |ApplyAll(EMPTY, events).settlements|
    ensures var t := ApplyAll(EMPTY, events); Settled(t.settlements[i], events, t.usage)
  {
    hide Apply, Settles;
    var before, e := events[..|events| - 1], events[|events| - 1];
    var t, u := ApplyAll(EMPTY, before), ApplyAll(EMPTY, events);
    NewSettlement(t, e);
    OneRowAtMost(t, e);
    assert forall x :: x in before ==> x in events;
    assert forall row :: row in t.usage ==> row in u.usage;
    if i < |t.settlements| {
      SettlementsSay(before, i);
      var x, row :| x in before && row in t.usage && Settles(t.settlements[i], x, row);
      assert Settles(u.settlements[i], x, row);
    } else {
      assert e in events && u.usage[|u.usage| - 1] in u.usage;
    }
  }

  /* ---- Sessions ---- */

  /** Whether an event goes any further: a live or activity event the first time its id comes, a reading if it enters the ledger. */
  ghost predicate Lands(t: Tables, event: UsageEvent) {
    && event.eventId !in t.ingested
    && (event.kind.LiveEstimate? || event.kind.Activity?
        || (event.kind.ExactUsage? && |t.usage| < |Apply(t, event).usage|))
  }

  /** The events that reach a conversation's session, with the parents they were filed under. */
  ghost function Reaching(events: seq<UsageEvent>, c: Conversation): seq<UsageEvent> {
    if events == [] then []
    else
      var before, event := events[..|events| - 1], events[|events| - 1];
      var t := ApplyAll(EMPTY, before);
      Reaching(before, c) +
        if ConversationOf(event) == c && Lands(t, event) then [ResolveParent(t.sessions, event)] else []
  }

  /** The first event names the parent; later on readings and activity do, when they name one. */
  function LastParent(log: seq<UsageEvent>): string {
    if log == [] then ""
    else
      var e, before := log[|log| - 1], log[..|log| - 1];
      if before == [] || (!e.kind.LiveEstimate? && e.parentId != "") then e.parentId else LastParent(before)
  }

  function LastReading(log: seq<UsageEvent>): Option<Instant> {
    if log == [] then None
    else if log[|log| - 1].kind.ExactUsage? then Some(log[|log| - 1].at)
    else LastReading(log[..|log| - 1])
  }

  /** The estimates since the last reading. */
  function LiveSince(log: seq<UsageEvent>): int {
    if log == [] then 0
    else
      var e, before := log[|log| - 1], log[..|log| - 1];
      match e.kind
      case ExactUsage => 0
      case LiveEstimate => LiveSince(before) + e.liveEstimate
      case _ => LiveSince(before)
  }

  function StatusAfter(k: Kind): string {
    match k
    case ExactUsage => "EXACT"
    case LiveEstimate => "ESTIMATED_LIVE"
    case _ => "LOWER_BOUND"
  }

  ghost predicate SessionSays(sessions: map<Conversation, Session>, c: Conversation, log: seq<UsageEvent>) {
    && (c in sessions <==> log != [])
    && (c in sessions ==>
          var s, last := sessions[c], log[|log| - 1];
          && s.status == StatusAfter(last.kind) && s.lastEvent == last.at
          && s.parent == LastParent(log) && s.lastExact == LastReading(log) && s.live == LiveSince(log))
  }

  /** What one more event that reaches the session makes of what is said. */
  lemma SaysMore(before: map<Conversation, Session>, after: map<Conversation, Session>, c: Conversation, log: seq<UsageEvent>, e: UsageEvent)
    requires SessionSays(before, c, log) && c in after
    requires var s := after[c];
             && s.status == StatusAfter(e.kind) && s.lastEvent == e.at
             && s.parent == (if log == [] || (!e.kind.LiveEstimate? && e.parentId != "") then e.parentId else before[c].parent)
             && s.lastExact == (if e.kind.ExactUsage? then Some(e.at) else if log == [] then None else before[c].lastExact)
             && s.live == (match e.kind case ExactUsage => 0 case LiveEstimate => LiveOf(before, c) + e.liveEstimate case _ => LiveOf(before, c))
    ensures SessionSays(after, c, log + [e])
  {
    assert (log + [e])[..|log|] == log;
  }

  lemma ExactSays(t: Tables, e: UsageEvent, log: seq<UsageEvent>)
    requires SessionSays(t.sessions, ConversationOf(e), log) && e.kind.ExactUsage?
    ensures |t.usage| < |ApplyExact(t, e).usage| ==> SessionSays(ApplyExact(t, e).sessions, ConversationOf(e), log + [e])
    ensures |t.usage| == |ApplyExact(t, e).usage| ==> ApplyExact(t, e) == t
  {
    hide PriorReading, RowFor, Clashes, AdvancesSource, Settle, SessionSays;
    if |t.usage| < |ApplyExact(t, e).usage| {
      assert ApplyExact(t, e).sessions == AddToSession(t.sessions, e, RowFor(PriorReading(t, e), e).delta);
      Known(t.sessions, ConversationOf(e), log);
      SaysMore(t.sessions, ApplyExact(t, e).sessions, ConversationOf(e), log, e);
    }
  }

  lemma Known(sessions: map<Conversation, Session>, c: Conversation, log: seq<UsageEvent>)
    requires SessionSays(sessions, c, log)
    ensures c in sessions <==> log != []
  {
  }

  lemma TouchSays(t: Tables, e: UsageEvent, log: seq<UsageEvent>)
    requires SessionSays(t.sessions, ConversationOf(e), log) && (e.kind.LiveEstimate? || e.kind.Activity?)
    ensures SessionSays(Touch(t, e).sessions, ConversationOf(e), log + [e])
  {
    hide SessionSays;
    Known(t.sessions, ConversationOf(e), log);
    SaysMore(t.sessions, Touch(t, e).sessions, ConversationOf(e), log, e);
  }

  lemma SessionStep(t: Tables, event: UsageEvent, c: Conversation, log: seq<UsageEvent>)
    requires SessionSays(t.sessions, c, log)
    ensures SessionSays(Apply(t, event).sessions, c,
                        log + if ConversationOf(event) == c && Lands(t, event) then [ResolveParent(t.sessions, event)] else [])
  {
    hide ApplyExact, Touch, ApplyRuntime;
    assert log + [] == log;
    var e := ResolveParent(t.sessions, event);
    var seen := t.(ingested := t.ingested + {e.eventId}, runtime := ApplyRuntime(t.runtime, e));
    if event.eventId !in t.ingested {
      if ConversationOf(event) == c {
        if e.kind.ExactUsage? { ExactSays(seen, e, log); }
        if e.kind.LiveEstimate? || e.kind.Activity? { TouchSays(seen, e, log); }
      } else {
        Elsewhere(seen, e, c);
      }
      OneRowAtMost(t, event);
    }
  }

  lemma Elsewhere(t: Tables, e: UsageEvent, c: Conversation)
    requires ConversationOf(e) != c
    ensures forall u :: u in {ApplyExact(t, e), Touch(t, e)} ==>
              (c in u.sessions <==> c in t.sessions) && (c in t.sessions ==> u.sessions[c] == t.sessions[c])
  {
    hide PriorReading, RowFor, Clashes, AdvancesSource, Settle;
  }

  /** Over every run: a conversation has a session exactly if an event reached it, and the session says what those events say —
      the kind of the last one, its time, the last parent named, the time of the last reading and the estimates since. */
  lemma {:induction false} SessionHistory(events: seq<UsageEvent>, c: Conversation)
    ensures SessionSays(ApplyAll(EMPTY, events).sessions, c, Reaching(events, c))
  {
    hide Apply, Lands, ResolveParent;
    if events == [] {
    } else {
      SessionHistory(events[..|events| - 1], c);
      SessionStep(ApplyAll(EMPTY, events[..|events| - 1]), events[|events| - 1], c, Reaching(events[..|events| - 1], c));
    }
  }

  /* ---- Conversation counters ---- */

  /** The counters a conversation has shown: its baselines, and its readings that entered the ledger. */
  ghost function CountersShown(events: seq<UsageEvent>, c: Conversation): seq<Tokens> {
    if events == [] then []
    else
      var before, event := events[..|events| - 1], events[|events| - 1];
      var t := ApplyAll(EMPTY, before);
      CountersShown(before, c) +
        if ConversationOf(event) == c && event.eventId !in t.ingested
           && (event.kind.Baseline? || (event.kind.ExactUsage? && Lands(t, event)))
        then [event.counts] else []
  }

  /** The epoch of the conversation's last ledger row. */
  function LastRowEpoch(usage: seq<LedgerRow>, c: Conversation): int {
    if usage == [] then 0
    else
      var last := usage[|usage| - 1];
      if (last.hostId, last.conversationId) == c then last.epoch else LastRowEpoch(usage[..|usage| - 1], c)
  }

  ghost predicate CounterSays(t: Tables, c: Conversation, shown: seq<Tokens>) {
    && (c in t.conversations <==> shown != [])
    && (c in t.conversations ==> t.conversations[c] == Counter(LastRowEpoch(t.usage, c), shown[|shown| - 1]))
    && (shown == [] ==> LastRowEpoch(t.usage, c) == 0)
  }

  lemma CounterStep(t: Tables, event: UsageEvent, c: Conversation, shown: seq<Tokens>)
    requires CounterSays(t, c, shown)
    ensures CounterSays(Apply(t, event), c,
                        shown + if ConversationOf(event) == c && event.eventId !in t.ingested
                                   && (event.kind.Baseline? || (event.kind.ExactUsage? && Lands(t, event)))
                                then [event.counts] else [])
  {
    hide ApplyExact, ApplyBaseline, ResolveParent, ApplyRuntime, CounterSays;
    assert shown + [] == shown;
    var e := ResolveParent(t.sessions, event);
    var seen := t.(ingested := t.ingested + {e.eventId}, runtime := ApplyRuntime(t.runtime, e));
    SameCounters(t, seen, c, shown);
    SameCounters(t, Apply(t, event), c, shown);
    if event.eventId !in t.ingested {
      if e.kind.ExactUsage? { ExactCounts(seen, e, c, shown); }
      if e.kind.Baseline? { BaselineCounts(seen, e, c, shown); }
      OneRowAtMost(t, event);
    }
  }

  lemma SameCounters(t: Tables, u: Tables, c: Conversation, shown: seq<Tokens>)
    requires CounterSays(t, c, shown)
    ensures u.conversations == t.conversations && u.usage == t.usage ==> CounterSays(u, c, shown)
  {
  }

  lemma BaselineCounts(t: Tables, e: UsageEvent, c: Conversation, shown: seq<Tokens>)
    requires CounterSays(t, c, shown)
    ensures CounterSays(ApplyBaseline(t, e), c, shown + if ConversationOf(e) == c then [e.counts] else [])
  {
    assert shown + [] == shown;
  }

  lemma ExactCounts(t: Tables, e: UsageEvent, c: Conversation, shown: seq<Tokens>)
    requires CounterSays(t, c, shown)
    ensures var u := ApplyExact(t, e);
            && CounterSays(u, c, shown + if ConversationOf(e) == c && |t.usage| < |u.usage| then [e.counts] else [])
            && (|u.usage| == |t.usage| ==> u == t)
  {
    hide PriorReading, ChargeFor, RowEpoch, DedupKey, Clashes, AdvancesSource, Settle, AddToSession;
    assert shown + [] == shown;
    var u := ApplyExact(t, e).usage;
    assert u == t.usage || (|u| == |t.usage| + 1 && u[..|t.usage|] == t.usage);
  }

  /** Over every run: a conversation's counter is the last one it has shown, whichever file it was read from, and its epoch is
      that of its last ledger row; a baseline moves the counter and leaves the epoch. */
  lemma {:induction false} CounterHistory(events: seq<UsageEvent>, c: Conversation)
    ensures CounterSays(ApplyAll(EMPTY, events), c, CountersShown(events, c))
  {
    hide Apply, Lands;
    if events != [] {
      CounterHistory(events[..|events| - 1], c);
      CounterStep(ApplyAll(EMPTY, events[..|events| - 1]), events[|events| - 1], c, CountersShown(events[..|events| - 1], c));
    }
  }
}
