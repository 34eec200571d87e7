/** What the ledger charges a source in total, against the counter readings that source delivered. */
module Accounting {
  import opened Wrappers
  import opened Wire
  import opened TaskRuntime
  import opened Ledger
  import opened LedgerProofs

  function SourceTotal(usage: seq<LedgerRow>, s: Source): int {
    if usage == [] then 0
    else
      var r := usage[|usage| - 1];
      SourceTotal(usage[..|usage| - 1], s) + if (r.hostId, r.sourceId) == s then r.delta.total else 0
  }

  lemma SourceTotalSnoc(usage: seq<LedgerRow>, row: LedgerRow, s: Source)
    ensures SourceTotal(usage + [row], s) == SourceTotal(usage, s) + if (row.hostId, row.sourceId) == s then row.delta.total else 0
  {
    assert (usage + [row])[..|usage + [row]| - 1] == usage;
  }

  function Watermark(t: Tables, s: Source): int {
    if s in t.sources then t.sources[s].counts.total else 0
  }

  function Watched(t: Tables, s: Source): Option<Counter> {
    if s in t.sources then Some(t.sources[s]) else None
  }

  predicate Lands(t: Tables, e: UsageEvent) {
    !Clashes(t.usage, RowFor(PriorReading(t, e), e))
  }

  /** `event` once its parent is resolved, and the tables once its id and evidence are noted. */
  function Resolved(t: Tables, event: UsageEvent): UsageEvent { ResolveParent(t.sessions, event) }

  function Noted(t: Tables, event: UsageEvent): Tables {
    var e := Resolved(t, event);
    t.(ingested := t.ingested + {e.eventId}, runtime := ApplyRuntime(t.runtime, e))
  }

  predicate Reads(t: Tables, event: UsageEvent, s: Source) {
    event.kind.ExactUsage? && SourceOf(event) == s && event.eventId !in t.ingested
  }

  predicate Rebases(t: Tables, event: UsageEvent, s: Source) {
    event.kind.Baseline? && SourceOf(event) == s && event.eventId !in t.ingested
  }

  lemma ExactAt(t: Tables, e: UsageEvent, s: Source)
    ensures SourceTotal(ApplyExact(t, e).usage, s)
         == SourceTotal(t.usage, s) + if SourceOf(e) == s && Lands(t, e) then ChargeFor(PriorReading(t, e), e).total else 0
    ensures Watched(ApplyExact(t, e), s)
         == if SourceOf(e) == s && Lands(t, e) && AdvancesSource(PriorReading(t, e), e)
            then Some(Counter(e.sourceEpoch, e.counts)) else Watched(t, s)
  {
    hide ChargeFor, DedupKey, Clashes, AddToSession, PriorReading, AdvancesSource;
    SourceTotalSnoc(t.usage, RowFor(PriorReading(t, e), e), s);
  }

  /** Noting an event's id and evidence leaves everything an exact reading or a baseline looks at alone. */
  lemma NotedAlike(t: Tables, event: UsageEvent)
    ensures var e, seen := Resolved(t, event), Noted(t, event);
            && seen.usage == t.usage && seen.sources == t.sources
            && PriorReading(seen, e) == PriorReading(t, e) && (Lands(seen, e) <==> Lands(t, e))
            && e.kind == event.kind && SourceOf(e) == SourceOf(event)
            && e.counts == event.counts && e.sourceEpoch == event.sourceEpoch
  {
    hide ApplyRuntime, ChargeFor, DedupKey;
  }

  lemma Applied(t: Tables, event: UsageEvent)
    requires event.eventId !in t.ingested
    ensures var e, seen, after := Resolved(t, event), Noted(t, event), Apply(t, event);
            && (e.kind.ExactUsage? ==> after == ApplyExact(seen, e))
            && (e.kind.Baseline? ==> after == ApplyBaseline(seen, e))
            && (!e.kind.ExactUsage? && !e.kind.Baseline? ==> after.usage == t.usage && after.sources == t.sources)
  {
    hide ApplyRuntime, ApplyExact, ApplyBaseline;
  }

  lemma NewElsewhere(t: Tables, event: UsageEvent, s: Source)
    requires event.eventId !in t.ingested && !Reads(t, event, s) && !Rebases(t, event, s)
    ensures SourceTotal(Apply(t, event).usage, s) == SourceTotal(t.usage, s)
    ensures Watched(Apply(t, event), s) == Watched(t, s)
  {
    hide Apply, ApplyExact, Resolved, Noted, Lands, PriorReading, ChargeFor;
    Applied(t, event);
    NotedAlike(t, event);
    ExactAt(Noted(t, event), Resolved(t, event), s);
  }

  /** Only the source's own new readings and baselines concern it. */
  lemma {:induction false} StepElsewhere(t: Tables, event: UsageEvent, s: Source)
    requires !Reads(t, event, s) && !Rebases(t, event, s)
    ensures SourceTotal(Apply(t, event).usage, s) == SourceTotal(t.usage, s)
    ensures Watched(Apply(t, event), s) == Watched(t, s)
  {
    if event.eventId in t.ingested {
      assert Apply(t, event) == t;
    } else {
      NewElsewhere(t, event, s);
    }
  }

  lemma StepBaseline(t: Tables, event: UsageEvent, s: Source)
    requires Rebases(t, event, s)
    ensures SourceTotal(Apply(t, event).usage, s) == SourceTotal(t.usage, s)
    ensures Watched(Apply(t, event), s) == Some(
              if s !in t.sources || event.sourceEpoch > t.sources[s].epoch then Counter(event.sourceEpoch, event.counts)
              else if event.counts.total > t.sources[s].counts.total then Counter(t.sources[s].epoch, event.counts)
              else t.sources[s])
  {
    hide Apply, Resolved, Noted;
    Applied(t, event);
    NotedAlike(t, event);
  }

  lemma {:induction false} StepReading(t: Tables, event: UsageEvent, s: Source)
    requires Reads(t, event, s)
    ensures var e := Resolved(t, event);
            SourceTotal(Apply(t, event).usage, s)
              == SourceTotal(t.usage, s) + if Lands(t, e) then ChargeFor(PriorReading(t, e), e).total else 0
    ensures var e := Resolved(t, event);
            Watched(Apply(t, event), s)
              == if Lands(t, e) && AdvancesSource(PriorReading(t, e), e) then Some(Counter(e.sourceEpoch, e.counts)) else Watched(t, s)
  {
    hide Apply, ApplyExact, Resolved, Noted, ChargeFor, PriorReading, AdvancesSource, Lands;
    Applied(t, event);
    NotedAlike(t, event);
    ExactAt(Noted(t, event), Resolved(t, event), s);
  }

  /* ---- Conservation ---- */

  // retired: watermarks of closed epochs. forgiven: the part of the counter that was there before monitoring.
  datatype Account = Account(retired: int, forgiven: int)

  function Post(t: Tables, event: UsageEvent, a: Account, s: Source): Account {
    var w := Watermark(t, s);
    if Rebases(t, event, s) then
      if s !in t.sources then a.(forgiven := a.forgiven + event.counts.total)
      else if event.sourceEpoch > t.sources[s].epoch then Account(a.retired + w, a.forgiven + event.counts.total)
      else if event.counts.total > w then a.(forgiven := a.forgiven + event.counts.total - w)
      else a
    else if Reads(t, event, s) && Lands(t, Resolved(t, event)) then
      if s in t.sources then
        if event.sourceEpoch > t.sources[s].epoch then a.(retired := a.retired + w) else a
      else
        var inherited := PriorReading(t, Resolved(t, event)).counts.total;
        if event.counts.total < inherited then a else a.(forgiven := a.forgiven + inherited)
    else a
  }

  function Books(events: seq<UsageEvent>, s: Source): Account {
    if events == [] then Account(0, 0)
    else
      var before := events[..|events| - 1];
      Post(ApplyAll(EMPTY, before), events[|events| - 1], Books(before, s), s)
  }

  lemma {:induction false} ConservationStep(t: Tables, event: UsageEvent, a: Account, s: Source)
    requires SourceTotal(t.usage, s) == a.retired + Watermark(t, s) - a.forgiven
    ensures var after, b := Apply(t, event), Post(t, event, a, s);
            SourceTotal(after.usage, s) == b.retired + Watermark(after, s) - b.forgiven
  {
    hide Apply, ResolveParent, Clashes;
    if Reads(t, event, s) {
      StepReading(t, event, s);
    } else if Rebases(t, event, s) {
      StepBaseline(t, event, s);
    } else {
      StepElsewhere(t, event, s);
    }
  }

  /** For every sequence of events, valid or not, a source has been charged its retired watermarks plus its
      current one, less what was forgiven. */
  lemma {:induction false} Conservation(events: seq<UsageEvent>, s: Source)
    ensures var t := ApplyAll(EMPTY, events);
            SourceTotal(t.usage, s) == Books(events, s).retired + Watermark(t, s) - Books(events, s).forgiven
  {
    if events != [] {
      var before, e := events[..|events| - 1], events[|events| - 1];
      Conservation(before, s);
      ConservationStep(ApplyAll(EMPTY, before), e, Books(before, s), s);
    }
  }

  lemma PostGrows(t: Tables, event: UsageEvent, a: Account, s: Source)
    requires NeverNegative(t) && ValidUsageEvent(event)
    ensures a.retired <= Post(t, event, a, s).retired && a.forgiven <= Post(t, event, a, s).forgiven
  {
    hide ResolveParent, Clashes, RowFor;
    assert PriorReading(t, Resolved(t, event)).counts.NonNegative();
  }

  /** Nothing is ever un-retired or un-forgiven. */
  lemma {:induction false} BooksOnlyGrow(events: seq<UsageEvent>, s: Source)
    requires forall i :: 0 <= i < |events| ==> ValidUsageEvent(events[i])
    ensures 0 <= Books(events, s).retired && 0 <= Books(events, s).forgiven
    ensures events != [] ==> Books(events[..|events| - 1], s).retired <= Books(events, s).retired
    ensures events != [] ==> Books(events[..|events| - 1], s).forgiven <= Books(events, s).forgiven
  {
    if events != [] {
      var before, e := events[..|events| - 1], events[|events| - 1];
      BooksOnlyGrow(before, s);
      LedgerInvariant(before);
      PostGrows(ApplyAll(EMPTY, before), e, Books(before, s), s);
    }
  }

  /* ---- The readings a source delivered ---- */

  datatype Reading = Reading(epoch: int, total: int)

  function ReadingsOf(events: seq<UsageEvent>, s: Source): seq<Reading> {
    if events == [] then []
    else
      var before, e := events[..|events| - 1], events[|events| - 1];
      if e.kind.ExactUsage? && SourceOf(e) == s && e.eventId !in Ids(before)
      then ReadingsOf(before, s) + [Reading(e.sourceEpoch, e.counts.total)]
      else ReadingsOf(before, s)
  }

  /** What the agent guarantees: a smaller total always comes with a later epoch. */
  ghost predicate Ordered(rs: seq<Reading>) {
    forall i :: 0 <= i < |rs| - 1 ==>
      rs[i].epoch < rs[i + 1].epoch || (rs[i].epoch == rs[i + 1].epoch && rs[i].total <= rs[i + 1].total)
  }

  function Increment(a: Reading, b: Reading): int {
    if a.epoch == b.epoch then b.total - a.total else b.total
  }

  /** The usage the readings describe: the first in full, then every rise, and every restart in full. */
  function Increments(rs: seq<Reading>): int {
    if rs == [] then 0
    else if |rs| == 1 then rs[0].total
    else Increments(rs[..|rs| - 1]) + Increment(rs[|rs| - 2], rs[|rs| - 1])
  }

  lemma IncrementsSnoc(rs: seq<Reading>, r: Reading)
    ensures Increments(rs + [r]) == Increments(rs) + if rs == [] then r.total else Increment(rs[|rs| - 1], r)
  {
    assert (rs + [r])[..|rs + [r]| - 1] == rs;
  }

  lemma OrderedPrefix(rs: seq<Reading>, r: Reading)
    requires Ordered(rs + [r])
    ensures Ordered(rs)
    ensures rs != [] ==> var l := rs[|rs| - 1]; l.epoch < r.epoch || (l.epoch == r.epoch && l.total <= r.total)
  {
    forall i | 0 <= i < |rs| - 1
      ensures rs[i].epoch < rs[i + 1].epoch || (rs[i].epoch == rs[i + 1].epoch && rs[i].total <= rs[i + 1].total)
    {
      assert (rs + [r])[i] == rs[i] && (rs + [r])[i + 1] == rs[i + 1];
    }
    if rs != [] {
      assert (rs + [r])[|rs| - 1] == rs[|rs| - 1] && (rs + [r])[|rs|] == r;
    }
  }

  ghost predicate Counted(rs: seq<Reading>) {
    forall i :: 0 <= i < |rs| ==> 0 <= rs[i].total
  }

  /** The agent numbers a source's epochs from 0, and sends its baselines before it has started any. */
  ghost predicate EpochsFromZero(events: seq<UsageEvent>, s: Source) {
    forall i :: 0 <= i < |events| && SourceOf(events[i]) == s ==>
      (events[i].kind.Baseline? ==> events[i].sourceEpoch == 0) && 0 <= events[i].sourceEpoch
  }

  /* ---- Never more than was used ---- */

  /** The room left for the current epoch: what may still be charged without passing the readings. */
  ghost predicate Within(charged: int, watched: Option<Counter>, rs: seq<Reading>) {
    && (watched.None? ==> charged == 0)
    && (watched.Some? ==> 0 <= watched.value.epoch && 0 <= watched.value.counts.total)
    && if rs == [] then charged == 0
       else
         var last := rs[|rs| - 1];
         if watched.Some? && last.epoch <= watched.value.epoch then
           charged + (if watched.value.counts.total < last.total then last.total - watched.value.counts.total else 0) <= Increments(rs)
         else
           charged + last.total <= Increments(rs)
  }

  ghost predicate WithinReadings(t: Tables, s: Source, rs: seq<Reading>) {
    Counted(rs) && Within(SourceTotal(t.usage, s), Watched(t, s), rs)
  }

  lemma {:induction false} WithinAfter(charged: int, watched: Option<Counter>, rs: seq<Reading>, e: UsageEvent, p: Prior)
    requires Within(charged, watched, rs) && Counted(rs) && e.counts.NonNegative() && 0 <= e.sourceEpoch
    requires Ordered(rs + [Reading(e.sourceEpoch, e.counts.total)])
    requires p.counts.NonNegative() && (p.found <==> watched.Some?)
    requires p.found ==> p.epoch == watched.value.epoch && p.counts.total == watched.value.counts.total
    ensures var r := Reading(e.sourceEpoch, e.counts.total);
            && Within(charged, watched, rs + [r])
            && Within(charged + ChargeFor(p, e).total,
                      if AdvancesSource(p, e) then Some(Counter(e.sourceEpoch, e.counts)) else watched, rs + [r])
  {
    var r := Reading(e.sourceEpoch, e.counts.total);
    IncrementsSnoc(rs, r);
    OrderedPrefix(rs, r);
    ChargeBounds(p, e);
    assert (rs + [r])[|rs|] == r;
    assert rs != [] ==> 0 <= rs[|rs| - 1].total;
    hide Increments, Ordered, Counted;
  }

  lemma PriorAt(t: Tables, event: UsageEvent)
    requires NeverNegative(t)
    ensures var e := Resolved(t, event);
            var p := PriorReading(t, e);
            && p.counts.NonNegative()
            && (p.found <==> SourceOf(event) in t.sources)
            && (p.found ==> p.epoch == t.sources[SourceOf(event)].epoch && p.counts.total == Watermark(t, SourceOf(event)))
  {
  }

  lemma {:induction false} WithinReadingsExact(t: Tables, event: UsageEvent, s: Source, rs: seq<Reading>)
    requires WithinReadings(t, s, rs) && NeverNegative(t)
    requires Reads(t, event, s) && event.counts.NonNegative() && 0 <= event.sourceEpoch
    requires Ordered(rs + [Reading(event.sourceEpoch, event.counts.total)])
    ensures WithinReadings(Apply(t, event), s, rs + [Reading(event.sourceEpoch, event.counts.total)])
  {
    var e := Resolved(t, event);
    StepReading(t, event, s);
    PriorAt(t, event);
    hide Apply, ResolveParent, Lands, PriorReading, AdvancesSource, ChargeFor, SourceTotal, NeverNegative, Ordered, Within;
    WithinAfter(SourceTotal(t.usage, s), Watched(t, s), rs, e, PriorReading(t, e));
  }

  lemma {:induction false} WithinReadingsOther(t: Tables, event: UsageEvent, s: Source, rs: seq<Reading>)
    requires WithinReadings(t, s, rs) && NeverNegative(t) && event.counts.NonNegative()
    requires !Reads(t, event, s) && (Rebases(t, event, s) ==> event.sourceEpoch == 0)
    ensures WithinReadings(Apply(t, event), s, rs)
  {
    hide Apply;
    if Rebases(t, event, s) {
      StepBaseline(t, event, s);
    } else {
      StepElsewhere(t, event, s);
    }
  }

  lemma {:induction false} WithinReadingsAlways(events: seq<UsageEvent>, s: Source)
    requires forall i :: 0 <= i < |events| ==> ValidUsageEvent(events[i])
    requires EpochsFromZero(events, s) && Ordered(ReadingsOf(events, s))
    ensures WithinReadings(ApplyAll(EMPTY, events), s, ReadingsOf(events, s))
  {
    if events != [] {
      var before, e := events[..|events| - 1], events[|events| - 1];
      var t, rs := ApplyAll(EMPTY, before), ReadingsOf(before, s);
      assert ValidUsageEvent(e);
      IngestedIds(EMPTY, before);
      LedgerInvariant(before);
      if Reads(t, e, s) {
        OrderedPrefix(rs, Reading(e.sourceEpoch, e.counts.total));
        WithinReadingsAlways(before, s);
        WithinReadingsExact(t, e, s, rs);
      } else {
        WithinReadingsAlways(before, s);
        WithinReadingsOther(t, e, s, rs);
      }
    }
  }

  /** Whatever else the server is sent — other sources, repeats, late baselines, dedup hits — a source whose
      readings arrive in order is never charged more than they add up to. */
  lemma {:induction false} NeverOvercounted(events: seq<UsageEvent>, s: Source)
    requires forall i :: 0 <= i < |events| ==> ValidUsageEvent(events[i])
    requires EpochsFromZero(events, s) && Ordered(ReadingsOf(events, s))
    ensures SourceTotal(ApplyAll(EMPTY, events).usage, s) <= Increments(ReadingsOf(events, s))
  {
    WithinReadingsAlways(events, s);
  }
}
