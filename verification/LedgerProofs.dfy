/** What every run of the ledger keeps, and why replays are harmless. */
module LedgerProofs {
  import opened Wrappers
  import opened Wire
  import opened TaskRuntime
  import opened Ledger

  /* ---- Sums over ledger rows ---- */

  function ConversationTotals(usage: seq<LedgerRow>, c: Conversation): Tokens {
    if usage == [] then ZERO
    else
      var before, r := ConversationTotals(usage[..|usage| - 1], c), usage[|usage| - 1];
      if (r.hostId, r.conversationId) == c then before.Plus(r.delta) else before
  }

  function SessionTotals(sessions: map<Conversation, Session>, c: Conversation): Tokens {
    if c in sessions then sessions[c].totals else ZERO
  }

  ghost predicate Agrees(t: Tables) {
    forall c :: SessionTotals(t.sessions, c) == ConversationTotals(t.usage, c)
  }

  ghost predicate WellKeyed(t: Tables) {
    && (forall i :: 0 <= i < |t.usage| ==> t.usage[i].eventId in t.ingested)
    && (forall i, j :: 0 <= i < j < |t.usage| ==>
          t.usage[i].eventId != t.usage[j].eventId
          && (t.usage[i].hostId == t.usage[j].hostId ==> t.usage[i].dedupKey != t.usage[j].dedupKey))
  }

  ghost predicate NeverNegative(t: Tables) {
    && (forall i :: 0 <= i < |t.usage| ==> t.usage[i].delta.NonNegative())
    && (forall s :: s in t.sources ==> t.sources[s].counts.NonNegative())
    && (forall c :: c in t.conversations ==> t.conversations[c].counts.NonNegative())
  }

  /** A charge lies between nothing and the reading itself, counter by counter. */
  lemma ChargeBounds(p: Prior, e: UsageEvent)
    requires e.counts.NonNegative() && p.counts.NonNegative()
    ensures ChargeFor(p, e).NonNegative()
    ensures ChargeFor(p, e).input <= e.counts.input && ChargeFor(p, e).cached <= e.counts.cached
    ensures ChargeFor(p, e).cacheWrite <= e.counts.cacheWrite && ChargeFor(p, e).output <= e.counts.output
    ensures ChargeFor(p, e).reasoning <= e.counts.reasoning && ChargeFor(p, e).total <= e.counts.total
  {
  }

  lemma TotalsSnoc(usage: seq<LedgerRow>, row: LedgerRow, c: Conversation)
    ensures ConversationTotals(usage + [row], c)
         == if (row.hostId, row.conversationId) == c then ConversationTotals(usage, c).Plus(row.delta) else ConversationTotals(usage, c)
  {
    assert (usage + [row])[..|usage + [row]| - 1] == usage;
  }

  lemma AgreesAfterExact(t: Tables, e: UsageEvent)
    requires Agrees(t)
    ensures Agrees(ApplyExact(t, e))
  {
    var row := RowFor(PriorReading(t, e), e);
    if !Clashes(t.usage, row) {
      var after := ApplyExact(t, e);
      assert after.usage == t.usage + [row];
      forall c ensures SessionTotals(after.sessions, c) == ConversationTotals(after.usage, c) {
        TotalsSnoc(t.usage, row, c);
        AddedTotals(t.sessions, e, row.delta, c);
        assert SessionTotals(t.sessions, c) == ConversationTotals(t.usage, c);
      }
    }
  }

  lemma AddedTotals(sessions: map<Conversation, Session>, e: UsageEvent, delta: Tokens, c: Conversation)
    ensures SessionTotals(AddToSession(sessions, e, delta), c)
         == if c == ConversationOf(e) then SessionTotals(sessions, c).Plus(delta)
            else SessionTotals(sessions, c)
  {
  }

  lemma AgreesAfterTouch(t: Tables, e: UsageEvent)
    requires Agrees(t)
    ensures Agrees(Touch(t, e))
  {
    forall c ensures SessionTotals(Touch(t, e).sessions, c) == ConversationTotals(t.usage, c) {
      assert SessionTotals(t.sessions, c) == ConversationTotals(t.usage, c);
    }
  }

  lemma {:induction false} AgreesAfter(t: Tables, event: UsageEvent)
    requires Agrees(t)
    ensures Agrees(Apply(t, event))
  {
    var e := ResolveParent(t.sessions, event);
    var seen := t.(ingested := t.ingested + {e.eventId}, runtime := ApplyRuntime(t.runtime, e));
    assert Agrees(seen) by {
      forall c ensures SessionTotals(seen.sessions, c) == ConversationTotals(seen.usage, c) {
        assert SessionTotals(t.sessions, c) == ConversationTotals(t.usage, c);
      }
    }
    match e.kind
    case ExactUsage => AgreesAfterExact(seen, e);
    case LiveEstimate => AgreesAfterTouch(seen, e);
    case Activity => AgreesAfterTouch(seen, e);
    case Baseline =>
      forall c ensures SessionTotals(ApplyBaseline(seen, e).sessions, c) == ConversationTotals(seen.usage, c) {
        assert SessionTotals(seen.sessions, c) == ConversationTotals(seen.usage, c);
      }
    case _ =>
  }

  lemma WellKeyedAfter(t: Tables, event: UsageEvent)
    requires WellKeyed(t)
    ensures WellKeyed(Apply(t, event))
  {
    var e := ResolveParent(t.sessions, event);
    var seen := t.(ingested := t.ingested + {e.eventId}, runtime := ApplyRuntime(t.runtime, e));
    if e.kind.ExactUsage? {
      WellKeyedAfterExact(seen, e);
    }
  }

  lemma WellKeyedAfterExact(t: Tables, e: UsageEvent)
    requires WellKeyed(t) && e.eventId in t.ingested
    ensures WellKeyed(ApplyExact(t, e))
  {
    var row := RowFor(PriorReading(t, e), e);
    if !Clashes(t.usage, row) {
      assert ApplyExact(t, e).usage == t.usage + [row];
    }
  }

  lemma NeverNegativeAfterExact(t: Tables, e: UsageEvent)
    requires NeverNegative(t) && e.counts.NonNegative()
    ensures NeverNegative(ApplyExact(t, e))
  {
    var p := PriorReading(t, e);
    assert p.counts.NonNegative();
    ChargeBounds(p, e);
    if !Clashes(t.usage, RowFor(p, e)) {
      assert ApplyExact(t, e).usage == t.usage + [RowFor(p, e)];
    }
  }

  lemma {:induction false} NeverNegativeAfter(t: Tables, event: UsageEvent)
    requires NeverNegative(t) && event.counts.NonNegative()
    ensures NeverNegative(Apply(t, event))
  {
    var e := ResolveParent(t.sessions, event);
    var seen := t.(ingested := t.ingested + {e.eventId}, runtime := ApplyRuntime(t.runtime, e));
    assert NeverNegative(seen);
    match e.kind
    case ExactUsage => NeverNegativeAfterExact(seen, e);
    case _ =>
  }

  /** In every reachable state a session's six stored totals are the sum of its ledger rows, no row charges
      a negative amount, and event ids and dedup keys are unique. */
  lemma {:induction false} LedgerInvariant(events: seq<UsageEvent>)
    requires forall i :: 0 <= i < |events| ==> ValidUsageEvent(events[i])
    ensures Agrees(ApplyAll(EMPTY, events))
    ensures WellKeyed(ApplyAll(EMPTY, events))
    ensures NeverNegative(ApplyAll(EMPTY, events))
  {
    hide Apply;
    if events != [] {
      var before, e := events[..|events| - 1], events[|events| - 1];
      LedgerInvariant(before);
      AgreesAfter(ApplyAll(EMPTY, before), e);
      WellKeyedAfter(ApplyAll(EMPTY, before), e);
      assert ValidUsageEvent(e);
      NeverNegativeAfter(ApplyAll(EMPTY, before), e);
    }
  }

  /** Whoever has a ledger row has a session. */
  lemma {:induction false} ChargedHasSession(events: seq<UsageEvent>, i: nat)
    requires i < |ApplyAll(EMPTY, events).usage|
    ensures var row := ApplyAll(EMPTY, events).usage[i]; (row.hostId, row.conversationId) in ApplyAll(EMPTY, events).sessions
  {
    hide Apply;
    var before, e := events[..|events| - 1], events[|events| - 1];
    RowBringsSession(ApplyAll(EMPTY, before), e);
    if i < |ApplyAll(EMPTY, before).usage| {
      ChargedHasSession(before, i);
    }
  }

  lemma RowBringsSession(t: Tables, event: UsageEvent)
    ensures var u := Apply(t, event);
            && t.sessions.Keys <= u.sessions.Keys && t.usage <= u.usage && |u.usage| <= |t.usage| + 1
            && (|t.usage| < |u.usage| ==> (u.usage[|t.usage|].hostId, u.usage[|t.usage|].conversationId) in u.sessions)
  {
    hide PriorReading, ChargeFor, RowEpoch, DedupKey, Clashes, ApplyRuntime, Settle, AdvancesSource;
  }

  /* ---- Sixty-four bits are enough ---- */

  lemma {:induction false} RowsAtMost(usage: seq<LedgerRow>, c: Conversation)
    requires forall i :: 0 <= i < |usage| ==> usage[i].delta.AtMost(1_000_000_000_000)
    ensures ConversationTotals(usage, c).AtMost(|usage| * 1_000_000_000_000)
  {
    if usage != [] {
      RowsAtMost(usage[..|usage| - 1], c);
    }
  }

  lemma {:induction false} ChargesAtMost(events: seq<UsageEvent>)
    requires forall i :: 0 <= i < |events| ==> ValidUsageEvent(events[i])
    ensures var usage := ApplyAll(EMPTY, events).usage; forall i :: 0 <= i < |usage| ==> usage[i].delta.AtMost(1_000_000_000_000)
    ensures |ApplyAll(EMPTY, events).usage| <= |events|
  {
    hide ValidUsageEvent, NeverNegative;
    if events != [] {
      var before, e := events[..|events| - 1], events[|events| - 1];
      ChargesAtMost(before);
      LedgerInvariant(before);
      assert ValidUsageEvent(e);
      NewChargeAtMost(ApplyAll(EMPTY, before), e);
    }
  }

  lemma NewChargeAtMost(t: Tables, event: UsageEvent)
    requires NeverNegative(t) && ValidUsageEvent(event)
    ensures var usage := Apply(t, event).usage;
            usage == t.usage || (usage != [] && usage[..|usage| - 1] == t.usage && usage[|usage| - 1].delta.AtMost(1_000_000_000_000))
  {
    hide DedupKey, Clashes, ApplyRuntime, AddToSession, Settle, RowEpoch, AdvancesSource;
    var e := ResolveParent(t.sessions, event);
    var seen := t.(ingested := t.ingested + {e.eventId}, runtime := ApplyRuntime(t.runtime, e));
    var p := PriorReading(seen, e);
    ChargeBounds(p, e);
    hide ChargeFor, PriorReading;
  }

  /** A reading is admitted with no counter above a trillion, so the totals of any session stay within sixty-four bits for nine
      million events. */
  lemma TotalsFit(events: seq<UsageEvent>, c: Conversation)
    requires |events| <= 9_000_000 && forall i :: 0 <= i < |events| ==> ValidUsageEvent(events[i])
    ensures c in ApplyAll(EMPTY, events).sessions ==>
              ApplyAll(EMPTY, events).sessions[c].totals.NonNegative() && ApplyAll(EMPTY, events).sessions[c].totals.AtMost(0x7fff_ffff_ffff_ffff)
  {
    hide ApplyAll, ValidUsageEvent;
    LedgerInvariant(events);
    ChargesAtMost(events);
    var usage := ApplyAll(EMPTY, events).usage;
    RowsAtMost(usage, c);
    RowsNonNegative(usage, c);
    assert SessionTotals(ApplyAll(EMPTY, events).sessions, c) == ConversationTotals(usage, c);
  }

  lemma {:induction false} RowsNonNegative(usage: seq<LedgerRow>, c: Conversation)
    requires forall i :: 0 <= i < |usage| ==> usage[i].delta.NonNegative()
    ensures ConversationTotals(usage, c).NonNegative()
  {
    if usage != [] {
      RowsNonNegative(usage[..|usage| - 1], c);
    }
  }

  lemma OneRowAtMost(t: Tables, event: UsageEvent)
    ensures t.usage <= Apply(t, event).usage
    ensures |Apply(t, event).usage| <= |t.usage| + 1
    ensures Apply(t, event).ingested == t.ingested + {event.eventId}
  {
    hide ApplyRuntime, RowFor, Clashes, AddToSession, PriorReading;
  }

  /** The ledger only grows: an event appends at most one row, and never rewrites an old one. */
  lemma {:induction false} LedgerOnlyGrows(t: Tables, events: seq<UsageEvent>)
    ensures t.usage <= ApplyAll(t, events).usage
    ensures |ApplyAll(t, events).usage| <= |t.usage| + |events|
  {
    if events != [] {
      LedgerOnlyGrows(t, events[..|events| - 1]);
      OneRowAtMost(ApplyAll(t, events[..|events| - 1]), events[|events| - 1]);
    }
  }

  /* ---- Replays ---- */

  function Ids(events: seq<UsageEvent>): set<Id> {
    set i | 0 <= i < |events| :: events[i].eventId
  }

  lemma IdsSnoc(events: seq<UsageEvent>)
    requires events != []
    ensures Ids(events) == Ids(events[..|events| - 1]) + {events[|events| - 1].eventId}
  {
    forall id | id in Ids(events) ensures id in Ids(events[..|events| - 1]) + {events[|events| - 1].eventId} {
      var i :| 0 <= i < |events| && events[i].eventId == id;
      if i < |events| - 1 {
        assert events[..|events| - 1][i].eventId == id;
      }
    }
    forall id | id in Ids(events[..|events| - 1]) ensures id in Ids(events) {
      var i :| 0 <= i < |events| - 1 && events[..|events| - 1][i].eventId == id;
      assert events[i].eventId == id;
    }
    assert events[|events| - 1].eventId in Ids(events);
  }

  /** The id filter remembers exactly the ids that arrived. */
  lemma {:induction false} IngestedIds(t: Tables, events: seq<UsageEvent>)
    ensures ApplyAll(t, events).ingested == t.ingested + Ids(events)
  {
    hide Apply;
    if events != [] {
      IngestedIds(t, events[..|events| - 1]);
      IdsSnoc(events);
      OneRowAtMost(ApplyAll(t, events[..|events| - 1]), events[|events| - 1]);
    }
  }

  lemma {:induction false} ApplyAllConcat(t: Tables, a: seq<UsageEvent>, b: seq<UsageEvent>)
    ensures ApplyAll(t, a + b) == ApplyAll(ApplyAll(t, a), b)
  {
    hide Apply;
    if b == [] {
      assert a + b == a;
    } else {
      ApplyAllConcat(t, a, b[..|b| - 1]);
      assert (a + b)[..|a + b| - 1] == a + b[..|b| - 1];
    }
  }

  /** Delivering again what was already ingested changes nothing, whatever the copies contain. */
  lemma {:induction false} ReplayIsIgnored(t: Tables, events: seq<UsageEvent>)
    requires Ids(events) <= t.ingested
    ensures ApplyAll(t, events) == t
  {
    if events != [] {
      IdsSnoc(events);
      ReplayIsIgnored(t, events[..|events| - 1]);
    }
  }

  function FirstOccurrences(events: seq<UsageEvent>): seq<UsageEvent> {
    if events == [] then []
    else
      var before, e := events[..|events| - 1], events[|events| - 1];
      if e.eventId in Ids(before) then FirstOccurrences(before) else FirstOccurrences(before) + [e]
  }

  lemma {:induction false} FirstOccurrencesIds(events: seq<UsageEvent>)
    ensures Ids(FirstOccurrences(events)) == Ids(events)
  {
    if events != [] {
      FirstOccurrencesIds(events[..|events| - 1]);
      IdsSnoc(events);
      if events[|events| - 1].eventId !in Ids(events[..|events| - 1]) {
        var f := FirstOccurrences(events);
        IdsSnoc(f);
        assert f[..|f| - 1] == FirstOccurrences(events[..|events| - 1]);
      }
    }
  }

  /** Any list of events with repeats leaves the same counters, ledger, sessions and task evidence as its
      first occurrences alone. */
  lemma {:induction false} ReplayIdempotence(events: seq<UsageEvent>)
    ensures ApplyAll(EMPTY, events) == ApplyAll(EMPTY, FirstOccurrences(events))
  {
    if events != [] {
      var before, e := events[..|events| - 1], events[|events| - 1];
      ReplayIdempotence(before);
      IngestedIds(EMPTY, before);
      if e.eventId !in Ids(before) {
        var f := FirstOccurrences(events);
        assert f[..|f| - 1] == FirstOccurrences(before);
      }
    }
  }

  /* ---- What was estimated ---- */

  /** The estimates of a conversation that ever arrived, each event once. */
  function Estimated(events: seq<UsageEvent>, c: Conversation): int {
    if events == [] then 0
    else
      var before, e := events[..|events| - 1], events[|events| - 1];
      Estimated(before, c) +
        if e.kind.LiveEstimate? && ConversationOf(e) == c && e.eventId !in Ids(before) then e.liveEstimate else 0
  }

  function SettledFor(settlements: seq<Settlement>, c: Conversation): int {
    if settlements == [] then 0
    else
      var last := settlements[|settlements| - 1];
      SettledFor(settlements[..|settlements| - 1], c) + if last.conversation == c then last.estimated else 0
  }

  ghost predicate SoundSettlements(t: Tables) {
    && (forall i :: 0 <= i < |t.settlements| ==>
          0 < t.settlements[i].estimated && t.settlements[i].error == t.settlements[i].estimated - t.settlements[i].exactOutput)
    && (forall c :: c in t.sessions ==> 0 <= t.sessions[c].live && (t.sessions[c].status == "EXACT" ==> t.sessions[c].live == 0))
  }

  lemma SettleAdds(t: Tables, e: UsageEvent, delta: Tokens, c: Conversation)
    requires SoundSettlements(t)
    ensures var settlements, sessions := Settle(t.settlements, t.sessions, e, delta.output), AddToSession(t.sessions, e, delta);
            LiveOf(sessions, c) + SettledFor(settlements, c) == LiveOf(t.sessions, c) + SettledFor(t.settlements, c)
  {
    var settlements := Settle(t.settlements, t.sessions, e, delta.output);
    if settlements != t.settlements {
      assert settlements[..|settlements| - 1] == t.settlements;
    }
  }

  function Balance(t: Tables, c: Conversation): int {
    LiveOf(t.sessions, c) + SettledFor(t.settlements, c)
  }

  lemma SettleSound(t: Tables, e: UsageEvent, delta: Tokens)
    requires SoundSettlements(t)
    ensures SoundSettlements(t.(settlements := Settle(t.settlements, t.sessions, e, delta.output),
                                sessions := AddToSession(t.sessions, e, delta)))
  {
  }

  lemma ExactEstimate(t: Tables, e: UsageEvent, c: Conversation)
    requires SoundSettlements(t)
    ensures SoundSettlements(ApplyExact(t, e)) && Balance(ApplyExact(t, e), c) == Balance(t, c)
  {
    hide PriorReading, RowFor, Clashes, AddToSession, Settle, AdvancesSource, SoundSettlements, SettledFor, LiveOf;
    var row := RowFor(PriorReading(t, e), e);
    if !Clashes(t.usage, row) {
      SettleAdds(t, e, row.delta, c);
      SettleSound(t, e, row.delta);
      SameEstimates(t.(settlements := Settle(t.settlements, t.sessions, e, row.delta.output), sessions := AddToSession(t.sessions, e, row.delta)),
                    ApplyExact(t, e));
    }
  }

  lemma TouchEstimate(t: Tables, e: UsageEvent, c: Conversation)
    requires SoundSettlements(t) && 0 <= e.liveEstimate
    ensures SoundSettlements(Touch(t, e))
    ensures Balance(Touch(t, e), c) ==
            Balance(t, c) + if !e.kind.Activity? && ConversationOf(e) == c then e.liveEstimate else 0
  {
  }

  lemma SameEstimates(t: Tables, u: Tables)
    requires SoundSettlements(t) && u.settlements == t.settlements && u.sessions == t.sessions
    ensures SoundSettlements(u)
  {
  }

  lemma EstimateStep(t: Tables, event: UsageEvent, c: Conversation)
    requires SoundSettlements(t) && 0 <= event.liveEstimate
    ensures SoundSettlements(Apply(t, event))
    ensures Balance(Apply(t, event), c) == Balance(t, c) +
            if event.kind.LiveEstimate? && ConversationOf(event) == c && event.eventId !in t.ingested then event.liveEstimate else 0
  {
    hide Ledger.ApplyExact, Touch, ApplyRuntime, SoundSettlements, SettledFor, LiveOf;
    if event.eventId !in t.ingested {
      var e := ResolveParent(t.sessions, event);
      var seen := t.(ingested := t.ingested + {e.eventId}, runtime := ApplyRuntime(t.runtime, e));
      SameEstimates(t, seen);
      match e.kind
      case ExactUsage => ExactEstimate(seen, e, c);
      case LiveEstimate => TouchEstimate(seen, e, c);
      case Activity => TouchEstimate(seen, e, c);
      case Baseline => SameEstimates(seen, ApplyBaseline(seen, e));
      case _ =>
    }
  }

  /** Every estimated token is either outstanding on its session or settled by one reconciliation row, never both and never
      lost; only positive estimates are settled, and a session labelled exact has none outstanding. */
  lemma {:induction false} EstimatesAreSettled(events: seq<UsageEvent>, c: Conversation)
    requires forall i :: 0 <= i < |events| ==> ValidUsageEvent(events[i])
    ensures var t := ApplyAll(EMPTY, events);
            SoundSettlements(t) && Balance(t, c) == Estimated(events, c)
  {
    hide Apply, SoundSettlements;
    if events == [] {
      assert SoundSettlements(EMPTY) by { NothingSettled(); }
    } else {
      var before, e := events[..|events| - 1], events[|events| - 1];
      EstimatesAreSettled(before, c);
      IngestedIds(EMPTY, before);
      assert ValidUsageEvent(e);
      EstimateStep(ApplyAll(EMPTY, before), e, c);
    }
  }

  lemma NothingSettled()
    ensures SoundSettlements(EMPTY)
  {
  }
}
