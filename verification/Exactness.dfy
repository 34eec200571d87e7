/** When a source is charged exactly what its readings add up to, and where the difference goes otherwise. */
module Exactness {
  import opened Wrappers
  import opened Wire
  import opened TaskRuntime
  import opened Ledger
  import opened LedgerProofs
  import opened Accounting

  /** Baselines come before the first reading, and the first reading continues from them: it is of the same
      epoch and not below the baseline's watermark. */
  ghost predicate BaselineFirst(events: seq<UsageEvent>, s: Source) {
    events == [] ||
    var before, e := events[..|events| - 1], events[|events| - 1];
    var t := ApplyAll(EMPTY, before);
    && BaselineFirst(before, s)
    && (Rebases(t, e, s) ==> ReadingsOf(before, s) == [])
    && (Reads(t, e, s) && ReadingsOf(before, s) == [] && s in t.sources ==>
          e.sourceEpoch == t.sources[s].epoch && Watermark(t, s) <= e.counts.total)
  }

  /** How far the last reading is ahead of what the watermark has recorded of its epoch. */
  function Pending(t: Tables, s: Source, rs: seq<Reading>): int {
    if rs == [] then 0
    else
      var last := rs[|rs| - 1];
      if s in t.sources && t.sources[s].epoch == last.epoch then last.total - Watermark(t, s) else last.total
  }

  /** What was still pending each time a later epoch began: no later reading can bring that back. */
  ghost function Lost(events: seq<UsageEvent>, s: Source): int {
    if events == [] then 0
    else
      var before, e := events[..|events| - 1], events[|events| - 1];
      var t, rs := ApplyAll(EMPTY, before), ReadingsOf(before, s);
      Lost(before, s) + if Reads(t, e, s) && rs != [] && rs[|rs| - 1].epoch < e.sourceEpoch then Pending(t, s, rs) else 0
  }

  ghost predicate Reconciled(t: Tables, a: Account, lost: int, s: Source, rs: seq<Reading>) {
    && (s in t.sources ==> 0 <= t.sources[s].epoch && 0 <= Watermark(t, s))
    && 0 <= lost
    && if rs == [] then
         a.retired == 0 && a.forgiven == Watermark(t, s) && lost == 0 && (s in t.sources ==> t.sources[s].epoch == 0)
       else
         && 0 <= Pending(t, s, rs)
         && (s in t.sources ==> t.sources[s].epoch <= rs[|rs| - 1].epoch)
         && (s !in t.sources ==> a.retired == 0)
         && Increments(rs) == a.retired + Watermark(t, s) + Pending(t, s, rs) + lost
  }

  lemma {:induction false} ReconciledReading(t: Tables, event: UsageEvent, a: Account, lost: int, s: Source, rs: seq<Reading>)
    requires Reconciled(t, a, lost, s, rs)
    requires Reads(t, event, s) && event.counts.NonNegative() && 0 <= event.sourceEpoch
    requires Ordered(rs + [Reading(event.sourceEpoch, event.counts.total)])
    requires rs == [] && s in t.sources ==> event.sourceEpoch == t.sources[s].epoch && Watermark(t, s) <= event.counts.total
    ensures var carried := if rs != [] && rs[|rs| - 1].epoch < event.sourceEpoch then Pending(t, s, rs) else 0;
            Reconciled(Apply(t, event), Post(t, event, a, s), lost + carried, s, rs + [Reading(event.sourceEpoch, event.counts.total)])
  {
    hide Apply, ResolveParent, Clashes, SourceTotal;
    var r := Reading(event.sourceEpoch, event.counts.total);
    StepReading(t, event, s);
    IncrementsSnoc(rs, r);
    OrderedPrefix(rs, r);
  }

  lemma ReconciledOther(t: Tables, event: UsageEvent, a: Account, lost: int, s: Source, rs: seq<Reading>)
    requires Reconciled(t, a, lost, s, rs)
    requires !Reads(t, event, s) && event.counts.NonNegative()
    requires Rebases(t, event, s) ==> event.sourceEpoch == 0 && rs == []
    ensures Reconciled(Apply(t, event), Post(t, event, a, s), lost, s, rs)
  {
    hide Apply;
    if Rebases(t, event, s) {
      StepBaseline(t, event, s);
    } else {
      StepElsewhere(t, event, s);
    }
  }

  lemma ReconciledAtFirst(s: Source)
    ensures Reconciled(EMPTY, Account(0, 0), 0, s, [])
  {
  }

  lemma {:induction false} ReconciledAlways(events: seq<UsageEvent>, s: Source)
    requires forall i :: 0 <= i < |events| ==> ValidUsageEvent(events[i])
    requires EpochsFromZero(events, s) && Ordered(ReadingsOf(events, s)) && BaselineFirst(events, s)
    ensures Reconciled(ApplyAll(EMPTY, events), Books(events, s), Lost(events, s), s, ReadingsOf(events, s))
  {
    hide Apply, Reconciled, Post, Pending, Agrees, WellKeyed, NeverNegative, Increments;
    if events == [] {
      ReconciledAtFirst(s);
    } else {
      var before, e := events[..|events| - 1], events[|events| - 1];
      var t, rs := ApplyAll(EMPTY, before), ReadingsOf(before, s);
      assert ValidUsageEvent(e);
      IngestedIds(EMPTY, before);
      if Reads(t, e, s) {
        OrderedPrefix(rs, Reading(e.sourceEpoch, e.counts.total));
        ReconciledAlways(before, s);
        ReconciledReading(t, e, Books(before, s), Lost(before, s), s, rs);
      } else {
        ReconciledAlways(before, s);
        ReconciledOther(t, e, Books(before, s), Lost(before, s), s, rs);
      }
    }
  }

  /** The full reconciliation of one source: what its readings add up to is what it was charged, plus what was
      forgiven, plus what ignored readings lost at epoch changes or still hold back — and none of these is
      negative. */
  lemma Reconciliation(events: seq<UsageEvent>, s: Source)
    requires forall i :: 0 <= i < |events| ==> ValidUsageEvent(events[i])
    requires EpochsFromZero(events, s) && Ordered(ReadingsOf(events, s)) && BaselineFirst(events, s)
    requires ReadingsOf(events, s) != []
    ensures var t, rs := ApplyAll(EMPTY, events), ReadingsOf(events, s);
            var charged, forgiven := SourceTotal(t.usage, s), Books(events, s).forgiven;
            && 0 <= forgiven && 0 <= Lost(events, s) && 0 <= Pending(t, s, rs)
            && charged + forgiven + Lost(events, s) + Pending(t, s, rs) == Increments(rs)
            && (charged + forgiven == Increments(rs) <==> Lost(events, s) == 0 && Pending(t, s, rs) == 0)
  {
    ReconciledAlways(events, s);
    Conservation(events, s);
    BooksOnlyGrow(events, s);
  }

  /* ---- The exact condition, on the branch that ignores ---- */

  /** A reading is kept if, on arrival, it does not clash, or brings nothing, or nothing beyond what the stored
      watermark of its own epoch has. */
  ghost predicate Kept(t: Tables, event: UsageEvent, s: Source) {
    || Lands(t, Resolved(t, event))
    || event.counts.total == 0
    || (s in t.sources && t.sources[s].epoch == event.sourceEpoch && event.counts.total <= Watermark(t, s))
  }

  /** Whether the source's latest reading was kept. */
  ghost predicate LastKept(events: seq<UsageEvent>, s: Source) {
    events == [] ||
    var before, e := events[..|events| - 1], events[|events| - 1];
    var t := ApplyAll(EMPTY, before);
    if Reads(t, e, s) then Kept(t, e, s) else LastKept(before, s)
  }

  /** Whether the latest reading was kept each time a later epoch began. */
  ghost predicate EpochsEndKept(events: seq<UsageEvent>, s: Source) {
    events == [] ||
    var before, e := events[..|events| - 1], events[|events| - 1];
    var t, rs := ApplyAll(EMPTY, before), ReadingsOf(before, s);
    && EpochsEndKept(before, s)
    && (Reads(t, e, s) && rs != [] && rs[|rs| - 1].epoch < e.sourceEpoch ==> LastKept(before, s))
  }

  lemma {:induction false} PendingAfterReading(t: Tables, event: UsageEvent, a: Account, lost: int, s: Source, rs: seq<Reading>)
    requires Reconciled(t, a, lost, s, rs)
    requires Reads(t, event, s) && event.counts.NonNegative() && 0 <= event.sourceEpoch
    requires Ordered(rs + [Reading(event.sourceEpoch, event.counts.total)])
    requires rs == [] && s in t.sources ==> event.sourceEpoch == t.sources[s].epoch && Watermark(t, s) <= event.counts.total
    ensures Pending(Apply(t, event), s, rs + [Reading(event.sourceEpoch, event.counts.total)]) == 0 <==> Kept(t, event, s)
  {
    hide Apply, ResolveParent, Clashes, SourceTotal, Increments, ChargeFor;
    OrderedPrefix(rs, Reading(event.sourceEpoch, event.counts.total));
    StepReading(t, event, s);
  }

  lemma {:induction false} PendingAfterOther(t: Tables, event: UsageEvent, s: Source, rs: seq<Reading>)
    requires !Reads(t, event, s) && (Rebases(t, event, s) ==> rs == [])
    ensures Pending(Apply(t, event), s, rs) == Pending(t, s, rs)
  {
    hide Apply, SourceTotal;
    if !Rebases(t, event, s) {
      StepElsewhere(t, event, s);
    }
  }

  /** Nothing is pending exactly if the latest reading was kept, and nothing was lost exactly if the latest one was
      kept whenever an epoch ended. */
  lemma {:induction false} ShortfallIsIgnored(events: seq<UsageEvent>, s: Source)
    requires forall i :: 0 <= i < |events| ==> ValidUsageEvent(events[i])
    requires EpochsFromZero(events, s) && Ordered(ReadingsOf(events, s)) && BaselineFirst(events, s)
    ensures Pending(ApplyAll(EMPTY, events), s, ReadingsOf(events, s)) == 0 <==> LastKept(events, s)
    ensures Lost(events, s) == 0 <==> EpochsEndKept(events, s)
  {
    hide Apply, Pending, Post, Agrees, WellKeyed, NeverNegative, Increments, Kept, Ordered;
    if events == [] {
      NothingPending(s);
    } else {
      var before, e := events[..|events| - 1], events[|events| - 1];
      var t, rs := ApplyAll(EMPTY, before), ReadingsOf(before, s);
      assert ValidUsageEvent(e);
      IngestedIds(EMPTY, before);
      if Reads(t, e, s) {
        OrderedPrefix(rs, Reading(e.sourceEpoch, e.counts.total));
        ShortfallIsIgnored(before, s);
        ReconciledAlways(before, s);
        PendingAfterReading(t, e, Books(before, s), Lost(before, s), s, rs);
      } else {
        ShortfallIsIgnored(before, s);
        PendingAfterOther(t, e, s, rs);
      }
    }
  }

  lemma NothingPending(s: Source)
    ensures Pending(EMPTY, s, []) == 0
  {
  }

  /** The charge is exact if and only if every reading that closes its epoch, and the last one, was kept when it
      arrived: it did not clash, or brought nothing, or nothing beyond the watermark. */
  lemma ExactIff(events: seq<UsageEvent>, s: Source)
    requires forall i :: 0 <= i < |events| ==> ValidUsageEvent(events[i])
    requires EpochsFromZero(events, s) && Ordered(ReadingsOf(events, s)) && BaselineFirst(events, s)
    requires ReadingsOf(events, s) != []
    ensures SourceTotal(ApplyAll(EMPTY, events).usage, s) + Books(events, s).forgiven == Increments(ReadingsOf(events, s))
       <==> LastKept(events, s) && EpochsEndKept(events, s)
  {
    hide *;
    Reconciliation(events, s);
    ShortfallIsIgnored(events, s);
  }

  /* ---- What is forgiven is the baseline ---- */

  predicate IsBaselineOf(e: UsageEvent, s: Source) { e.kind.Baseline? && SourceOf(e) == s }

  /** The largest total a baseline of the source has named; 0 when there was none. Copies do not count. */
  function TopBaseline(events: seq<UsageEvent>, s: Source): (top: int)
    ensures 0 <= top
  {
    if events == [] then 0
    else
      var before, e := events[..|events| - 1], events[|events| - 1];
      var top := TopBaseline(before, s);
      if IsBaselineOf(e, s) && e.eventId !in Ids(before) && top < e.counts.total then e.counts.total else top
  }

  predicate HasBaseline(events: seq<UsageEvent>, s: Source) {
    events != [] &&
    var before, e := events[..|events| - 1], events[|events| - 1];
    HasBaseline(before, s) || (IsBaselineOf(e, s) && e.eventId !in Ids(before))
  }

  /** No baseline of the source comes after a reading of it. */
  ghost predicate BaselinesLead(events: seq<UsageEvent>, s: Source) {
    forall i, j :: 0 <= i < j < |events| && events[i].kind.ExactUsage? && SourceOf(events[i]) == s ==> !IsBaselineOf(events[j], s)
  }

  /** Until its first reading, a source's watermark is its largest baseline, in epoch 0, and all of it is forgiven. */
  lemma {:induction false} BaselineCounter(events: seq<UsageEvent>, s: Source)
    requires forall i :: 0 <= i < |events| ==> ValidUsageEvent(events[i])
    requires EpochsFromZero(events, s) && ReadingsOf(events, s) == []
    ensures var t := ApplyAll(EMPTY, events);
            && (s in t.sources ==> t.sources[s].epoch == 0)
            && Watermark(t, s) == TopBaseline(events, s) == Books(events, s).forgiven
            && (s in t.sources <==> HasBaseline(events, s))
  {
    if events != [] {
      var before, e := events[..|events| - 1], events[|events| - 1];
      assert events == before + [e] && ValidUsageEvent(e);
      EpochsBefore(before, e, s);
      BaselineCounter(before, s);
      IngestedIds(EMPTY, before);
      hide Apply, ResolveParent, ValidUsageEvent, SourceTotal;
      var t := ApplyAll(EMPTY, before);
      if Rebases(t, e, s) {
        StepBaseline(t, e, s);
      } else {
        StepElsewhere(t, e, s);
      }
    }
  }

  lemma {:induction false} FirstReadingStays(events: seq<UsageEvent>, s: Source)
    requires events != []
    ensures ReadingsOf(events[..|events| - 1], s) <= ReadingsOf(events, s)
    ensures TopBaseline(events[..|events| - 1], s) <= TopBaseline(events, s)
  {
  }

  lemma {:induction false} ReadingMeansReading(events: seq<UsageEvent>, s: Source)
    requires ReadingsOf(events, s) != []
    ensures exists i :: 0 <= i < |events| && events[i].kind.ExactUsage? && SourceOf(events[i]) == s
  {
    var before, e := events[..|events| - 1], events[|events| - 1];
    if ReadingsOf(before, s) != [] {
      ReadingMeansReading(before, s);
      var i :| 0 <= i < |before| && before[i].kind.ExactUsage? && SourceOf(before[i]) == s;
      assert events[i] == before[i];
    }
  }

  lemma LeadBefore(before: seq<UsageEvent>, e: UsageEvent, s: Source)
    requires BaselinesLead(before + [e], s)
    ensures BaselinesLead(before, s)
    ensures ReadingsOf(before, s) != [] ==> !IsBaselineOf(e, s)
  {
    var events := before + [e];
    assert events[|before|] == e && forall i :: 0 <= i < |before| ==> events[i] == before[i];
    if ReadingsOf(before, s) != [] {
      ReadingMeansReading(before, s);
      var i :| 0 <= i < |before| && before[i].kind.ExactUsage? && SourceOf(before[i]) == s;
      assert events[i].kind.ExactUsage?;
    }
  }

  /** Baselines that lead, and a first reading of epoch 0 that is not below the largest of them: then the first reading
      continues the baseline. */
  lemma {:induction false} LeadingBaselines(events: seq<UsageEvent>, s: Source)
    requires forall i :: 0 <= i < |events| ==> ValidUsageEvent(events[i])
    requires EpochsFromZero(events, s) && BaselinesLead(events, s)
    requires ReadingsOf(events, s) != [] ==>
               ReadingsOf(events, s)[0].epoch == 0 && TopBaseline(events, s) <= ReadingsOf(events, s)[0].total
    ensures BaselineFirst(events, s)
  {
    hide Apply, ValidUsageEvent, Resolved;
    if events != [] {
      var before, e := events[..|events| - 1], events[|events| - 1];
      assert events == before + [e];
      EpochsBefore(before, e, s);
      LeadBefore(before, e, s);
      FirstReadingStays(events, s);
      LeadingBaselines(before, s);
      IngestedIds(EMPTY, before);
      if ReadingsOf(before, s) == [] {
        BaselineCounter(before, s);
      }
    }
  }

  /** The source's first counted reading found no counter of its conversation or parent. */
  ghost predicate NothingInherited(events: seq<UsageEvent>, s: Source) {
    events == [] ||
    var before, e := events[..|events| - 1], events[|events| - 1];
    var t := ApplyAll(EMPTY, before);
    && NothingInherited(before, s)
    && (Reads(t, e, s) && s !in t.sources ==> PriorReading(t, Resolved(t, e)).counts.total == 0)
  }

  /** What is forgiven is the largest baseline, and nothing else. */
  lemma {:induction false} ForgivenIsBaseline(events: seq<UsageEvent>, s: Source)
    requires forall i :: 0 <= i < |events| ==> ValidUsageEvent(events[i])
    requires EpochsFromZero(events, s) && BaselineFirst(events, s) && NothingInherited(events, s)
    ensures Books(events, s).forgiven == TopBaseline(events, s)
  {
    hide Apply, SourceTotal, ReadingsOf;
    if events != [] {
      var before, e := events[..|events| - 1], events[|events| - 1];
      assert events == before + [e] && ValidUsageEvent(e);
      EpochsBefore(before, e, s);
      ForgivenIsBaseline(before, s);
      IngestedIds(EMPTY, before);
      var t := ApplyAll(EMPTY, before);
      if Rebases(t, e, s) {
        BaselineCounter(before, s);
      }
    }
  }

  lemma {:induction false} BaselineIsWatched(events: seq<UsageEvent>, s: Source)
    requires HasBaseline(events, s)
    ensures s in ApplyAll(EMPTY, events).sources
  {
    hide Apply, Resolved, Clashes;
    var before, e := events[..|events| - 1], events[|events| - 1];
    var t := ApplyAll(EMPTY, before);
    IngestedIds(EMPTY, before);
    if HasBaseline(before, s) {
      BaselineIsWatched(before, s);
    }
    if Rebases(t, e, s) {
      StepBaseline(t, e, s);
    } else if Reads(t, e, s) {
      StepReading(t, e, s);
    } else {
      StepElsewhere(t, e, s);
    }
  }

  lemma {:induction false} NoReadingInheritsNothing(events: seq<UsageEvent>, s: Source)
    requires forall i :: 0 <= i < |events| ==> !(events[i].kind.ExactUsage? && SourceOf(events[i]) == s)
    ensures NothingInherited(events, s)
  {
    if events != [] {
      NoReadingInheritsNothing(events[..|events| - 1], s);
    }
  }

  /** A source with a baseline inherits nothing: its first reading finds a counter of its own. */
  lemma {:induction false} BaselineMeansNothingInherited(events: seq<UsageEvent>, s: Source)
    requires HasBaseline(events, s) && BaselinesLead(events, s)
    ensures NothingInherited(events, s)
  {
    hide Apply, PriorReading, Resolved;
    var before, e := events[..|events| - 1], events[|events| - 1];
    assert events == before + [e];
    LeadBefore(before, e, s);
    if HasBaseline(before, s) {
      BaselineMeansNothingInherited(before, s);
      BaselineIsWatched(before, s);
    } else {
      forall i | 0 <= i < |before| ensures !(before[i].kind.ExactUsage? && SourceOf(before[i]) == s) {
        assert before[i] == events[i] && events[|before|] == e;
      }
      NoReadingInheritsNothing(before, s);
    }
  }

  /* ---- A condition on the events alone ---- */

  /** What makes two readings of a host share a dedup key: the response or turn they name, or lacking both
      their conversation, together with the total. */
  function Naming(e: UsageEvent): (bool, string, int) {
    var name := if e.responseId != "" then e.responseId else e.turnId;
    (name != "", if name != "" then name else e.conversationId, e.counts.total)
  }

  /** No reading of `s` shares its naming with an earlier reading of another source or epoch. */
  ghost predicate KeysStayHome(events: seq<UsageEvent>, s: Source) {
    forall i, j :: 0 <= i < j < |events|
      && events[i].kind.ExactUsage? && events[j].kind.ExactUsage?
      && SourceOf(events[j]) == s && events[i].hostId == events[j].hostId && Naming(events[i]) == Naming(events[j])
      ==> SourceOf(events[i]) == s && events[i].sourceEpoch == events[j].sourceEpoch
  }

  ghost predicate Covers(t: Tables, s: Source, epoch: int, total: int) {
    s in t.sources && (epoch < t.sources[s].epoch || (epoch == t.sources[s].epoch && total <= Watermark(t, s)))
  }

  /** `row` was written for `e`, and if that is a reading of `s` the source's counter has kept it. */
  ghost predicate Origin(t: Tables, s: Source, row: LedgerRow, e: UsageEvent) {
    && e.kind.ExactUsage? && SourceOf(e) == (row.hostId, row.sourceId) && row.dedupKey == DedupKey(e, row.epoch)
    && (SourceOf(e) == s ==> Covers(t, s, e.sourceEpoch, e.counts.total))
  }

  ghost predicate HasOrigin(t: Tables, s: Source, row: LedgerRow, events: seq<UsageEvent>) {
    exists i :: 0 <= i < |events| && Origin(t, s, row, events[i])
  }

  ghost predicate RowsHaveOrigins(t: Tables, s: Source, events: seq<UsageEvent>) {
    forall k :: 0 <= k < |t.usage| ==> HasOrigin(t, s, t.usage[k], events)
  }

  /** The watermark never falls within an epoch, and epochs never fall. */
  ghost predicate CounterHolds(t: Tables, after: Tables, s: Source) {
    s in t.sources ==>
      && s in after.sources
      && (t.sources[s].epoch < after.sources[s].epoch
          || (t.sources[s].epoch == after.sources[s].epoch && Watermark(t, s) <= Watermark(after, s)))
  }

  lemma OriginsCarry(t: Tables, after: Tables, s: Source, events: seq<UsageEvent>, event: UsageEvent)
    requires RowsHaveOrigins(t, s, events) && CounterHolds(t, after, s)
    requires after.usage == t.usage || (|after.usage| == |t.usage| + 1 && after.usage[..|t.usage|] == t.usage
                                        && Origin(after, s, after.usage[|after.usage| - 1], event))
    ensures RowsHaveOrigins(after, s, events + [event])
  {
    forall k | 0 <= k < |after.usage|
      ensures HasOrigin(after, s, after.usage[k], events + [event])
    {
      if k < |t.usage| {
        assert HasOrigin(t, s, t.usage[k], events);
        var i :| 0 <= i < |events| && Origin(t, s, t.usage[k], events[i]);
        assert Origin(after, s, after.usage[k], (events + [event])[i]);
      } else {
        assert Origin(after, s, after.usage[k], (events + [event])[|events|]);
      }
    }
  }

  lemma UnchangedUsage(t: Tables, event: UsageEvent)
    requires event.eventId in t.ingested || !event.kind.ExactUsage? || !Lands(t, Resolved(t, event))
    ensures Apply(t, event).usage == t.usage
  {
    assert PriorReading(Noted(t, event), Resolved(t, event)) == PriorReading(t, Resolved(t, event));
  }

  lemma OriginsAfter(t: Tables, event: UsageEvent, s: Source, events: seq<UsageEvent>)
    requires RowsHaveOrigins(t, s, events) && CounterHolds(t, Apply(t, event), s)
    requires Reads(t, event, s) && Lands(t, Resolved(t, event)) ==>
               Covers(Apply(t, event), s, event.sourceEpoch, event.counts.total)
    ensures RowsHaveOrigins(Apply(t, event), s, events + [event])
  {
    var e, after := Resolved(t, event), Apply(t, event);
    if event.kind.ExactUsage? && event.eventId !in t.ingested && Lands(t, e) {
      assert PriorReading(Noted(t, event), e) == PriorReading(t, e);
      assert after.usage == t.usage + [RowFor(PriorReading(t, e), e)];
    } else {
      UnchangedUsage(t, event);
    }
    OriginsCarry(t, after, s, events, event);
  }

  /** A reading of `s` that the ledger ignores had already been counted by an earlier one of its epoch. */
  lemma IgnoredMeansCounted(t: Tables, event: UsageEvent, s: Source, events: seq<UsageEvent>)
    requires WellKeyed(t) && RowsHaveOrigins(t, s, events)
    requires Reads(t, event, s) && !Lands(t, Resolved(t, event))
    requires KeysStayHome(events + [event], s)
    ensures Covers(t, s, event.sourceEpoch, event.counts.total)
  {
    var e := Resolved(t, event);
    var row := RowFor(PriorReading(t, e), e);
    var k :| 0 <= k < |t.usage| &&
      (t.usage[k].eventId == row.eventId || (t.usage[k].hostId == row.hostId && t.usage[k].dedupKey == row.dedupKey));
    assert t.usage[k].eventId in t.ingested;
    assert HasOrigin(t, s, t.usage[k], events);
    var i :| 0 <= i < |events| && Origin(t, s, t.usage[k], events[i]);
    var all := events + [event];
    assert all[i] == events[i] && all[|events|] == event;
    assert Naming(events[i]) == Naming(event);
  }

  ghost predicate FullyCounted(t: Tables, events: seq<UsageEvent>, s: Source) {
    && RowsHaveOrigins(t, s, events)
    && Lost(events, s) == 0
    && Pending(t, s, ReadingsOf(events, s)) == 0
  }

  lemma {:induction false} FullyCountedReading(t: Tables, e: UsageEvent, a: Account, s: Source, before: seq<UsageEvent>)
    requires WellKeyed(t) && FullyCounted(t, before, s) && Reads(t, e, s)
    requires Reconciled(t, a, 0, s, ReadingsOf(before, s))
    requires Ordered(ReadingsOf(before, s) + [Reading(e.sourceEpoch, e.counts.total)]) && KeysStayHome(before + [e], s)
    requires ReadingsOf(before, s) == [] && s in t.sources ==>
               e.sourceEpoch == t.sources[s].epoch && Watermark(t, s) <= e.counts.total
    requires 0 <= e.counts.total && 0 <= e.sourceEpoch
    ensures RowsHaveOrigins(Apply(t, e), s, before + [e])
    ensures Pending(Apply(t, e), s, ReadingsOf(before, s) + [Reading(e.sourceEpoch, e.counts.total)]) == 0
  {
    hide Apply, SourceTotal, Clashes, ReadingsOf, Increments, RowsHaveOrigins, WellKeyed, ChargeFor;
    var rs := ReadingsOf(before, s);
    OrderedPrefix(rs, Reading(e.sourceEpoch, e.counts.total));
    StepReading(t, e, s);
    if !Lands(t, Resolved(t, e)) {
      IgnoredMeansCounted(t, e, s, before);
    }
    OriginsAfter(t, e, s, before);
  }

  lemma {:induction false} FullyCountedOther(t: Tables, e: UsageEvent, s: Source, before: seq<UsageEvent>)
    requires FullyCounted(t, before, s) && !Reads(t, e, s)
    requires Rebases(t, e, s) ==> ReadingsOf(before, s) == []
    ensures RowsHaveOrigins(Apply(t, e), s, before + [e])
    ensures Pending(Apply(t, e), s, ReadingsOf(before, s)) == 0
  {
    hide Apply, SourceTotal, RowsHaveOrigins;
    if Rebases(t, e, s) {
      StepBaseline(t, e, s);
    } else {
      StepElsewhere(t, e, s);
    }
    OriginsAfter(t, e, s, before);
  }

  lemma FullyCountedAtFirst(s: Source)
    ensures FullyCounted(EMPTY, [], s)
  {
  }

  lemma {:induction false} FullyCountedAlways(events: seq<UsageEvent>, s: Source)
    requires forall i :: 0 <= i < |events| ==> ValidUsageEvent(events[i])
    requires EpochsFromZero(events, s) && Ordered(ReadingsOf(events, s)) && BaselineFirst(events, s)
    requires KeysStayHome(events, s)
    ensures FullyCounted(ApplyAll(EMPTY, events), events, s)
  {
    if events == [] {
      FullyCountedAtFirst(s);
    } else {
      var before, e := events[..|events| - 1], events[|events| - 1];
      assert before + [e] == events && ValidUsageEvent(e);
      KeysStayHomeBefore(before, e, s);
      if ReadingsOf(events, s) != ReadingsOf(before, s) {
        OrderedPrefix(ReadingsOf(before, s), Reading(e.sourceEpoch, e.counts.total));
      }
      FullyCountedAlways(before, s);
      FullyCountedStep(before, e, s);
    }
  }

  lemma KeysStayHomeBefore(before: seq<UsageEvent>, e: UsageEvent, s: Source)
    requires KeysStayHome(before + [e], s)
    ensures KeysStayHome(before, s)
  {
    var all := before + [e];
    assert forall i :: 0 <= i < |before| ==> all[i] == before[i];
  }

  lemma FullyCountedStep(before: seq<UsageEvent>, e: UsageEvent, s: Source)
    requires ValidUsageEvent(e) && forall i :: 0 <= i < |before| ==> ValidUsageEvent(before[i])
    requires EpochsFromZero(before + [e], s) && Ordered(ReadingsOf(before + [e], s)) && BaselineFirst(before + [e], s)
    requires KeysStayHome(before + [e], s)
    requires FullyCounted(ApplyAll(EMPTY, before), before, s)
    ensures FullyCounted(ApplyAll(EMPTY, before + [e]), before + [e], s)
  {
    hide Apply, RowsHaveOrigins, Reconciled, WellKeyed, Agrees, NeverNegative, Pending, Post, Increments, KeysStayHome, Ordered;
    var t, rs := ApplyAll(EMPTY, before), ReadingsOf(before, s);
    assert (before + [e])[..|before|] == before && (before + [e])[|before|] == e;
    IngestedIds(EMPTY, before);
    LedgerInvariant(before);
    if Reads(t, e, s) {
      OrderedPrefix(rs, Reading(e.sourceEpoch, e.counts.total));
      EpochsBefore(before, e, s);
      ReconciledAlways(before, s);
      FullyCountedReading(t, e, Books(before, s), s, before);
    } else {
      FullyCountedOther(t, e, s, before);
    }
  }

  lemma EpochsBefore(before: seq<UsageEvent>, e: UsageEvent, s: Source)
    requires EpochsFromZero(before + [e], s)
    ensures EpochsFromZero(before, s)
    ensures SourceOf(e) == s ==> 0 <= e.sourceEpoch
  {
    var all := before + [e];
    assert all[|before|] == e && forall i :: 0 <= i < |before| ==> all[i] == before[i];
  }

  /** When no key recurs outside its own source and epoch, the charge and the forgiven part together are
      exactly what the readings add up to. */
  lemma {:induction false} CountedExactly(events: seq<UsageEvent>, s: Source)
    requires forall i :: 0 <= i < |events| ==> ValidUsageEvent(events[i])
    requires EpochsFromZero(events, s) && Ordered(ReadingsOf(events, s)) && BaselineFirst(events, s)
    requires KeysStayHome(events, s) && ReadingsOf(events, s) != []
    ensures SourceTotal(ApplyAll(EMPTY, events).usage, s) + Books(events, s).forgiven == Increments(ReadingsOf(events, s))
  {
    FullyCountedAlways(events, s);
    Reconciliation(events, s);
  }

  /* ---- The condition cannot be dropped ---- */

  function TurnReading(id: string, epoch: int, turn: string, total: int): UsageEvent {
    UsageEvent(Raw(id), "h", "s", 0, epoch, ExactUsage, 1, "c", "p", turn, "", 0, Tokens(0, 0, 0, 0, 0, total), false, 0, "")
  }

  const FIRST := TurnReading("1", 0, "A", 100)
  const RESTART := TurnReading("2", 1, "B", 60)
  const AGAIN := TurnReading("3", 1, "A", 100)

  lemma FirstReading()
    ensures var t := Apply(EMPTY, FIRST);
            && t.usage == [RowFor(Prior(false, 0, ZERO), FIRST)] && t.usage[0].delta.total == 100
            && t.sources == map[("h", "s") := Counter(0, FIRST.counts)] && t.ingested == {Raw("1")}
  {
    hide ApplyRuntime;
    assert ResolveParent(map[], FIRST) == FIRST;
  }

  lemma RestartReading(t: Tables)
    requires t == Apply(EMPTY, FIRST)
    ensures var u := Apply(t, RESTART);
            && u.usage == t.usage + [RowFor(Prior(true, 0, FIRST.counts), RESTART)] && u.usage[1].delta.total == 60
            && u.sources == map[("h", "s") := Counter(1, RESTART.counts)] && u.ingested == {Raw("1"), Raw("2")}
  {
    FirstReading();
    hide ApplyRuntime;
    assert ResolveParent(t.sessions, RESTART) == RESTART;
  }

  lemma {:induction false} AgainReading(u: Tables)
    requires u == Apply(Apply(EMPTY, FIRST), RESTART)
    ensures Apply(u, AGAIN).usage == u.usage
  {
    FirstReading();
    RestartReading(Apply(EMPTY, FIRST));
    hide ApplyRuntime;
    assert ResolveParent(u.sessions, AGAIN) == AGAIN;
    assert u.usage[0].hostId == "h" && u.usage[0].dedupKey == DedupKey(AGAIN, 1);
  }

  lemma {:induction false} ThreeApplied()
    ensures ApplyAll(EMPTY, [FIRST, RESTART, AGAIN]) == Apply(Apply(Apply(EMPTY, FIRST), RESTART), AGAIN)
  {
    hide Apply;
    var events := [FIRST, RESTART, AGAIN];
    assert events[..2] == [FIRST, RESTART] && events[..2][..1] == [FIRST] && [FIRST][..0] == [];
    assert ApplyAll(EMPTY, [FIRST]) == Apply(EMPTY, FIRST);
    assert ApplyAll(EMPTY, events[..2]) == Apply(Apply(EMPTY, FIRST), RESTART);
  }

  lemma {:induction false} ThreeCharged()
    ensures SourceTotal(Apply(Apply(Apply(EMPTY, FIRST), RESTART), AGAIN).usage, ("h", "s")) == 160
  {
    hide Apply, SourceTotal, RowFor;
    var t := Apply(EMPTY, FIRST);
    var u := Apply(t, RESTART);
    FirstReading();
    RestartReading(t);
    AgainReading(u);
    NothingCharged(("h", "s"));
    SourceTotalSnoc([], t.usage[0], ("h", "s"));
    assert [] + [t.usage[0]] == t.usage;
    SourceTotalSnoc(t.usage, u.usage[1], ("h", "s"));
    RowsOfSource();
  }

  lemma NothingCharged(s: Source)
    ensures SourceTotal([], s) == 0
  {
  }

  lemma RowsOfSource()
    ensures RowFor(Prior(false, 0, ZERO), FIRST).hostId == "h" == RowFor(Prior(true, 0, FIRST.counts), RESTART).hostId
    ensures RowFor(Prior(false, 0, ZERO), FIRST).sourceId == "s" == RowFor(Prior(true, 0, FIRST.counts), RESTART).sourceId
  {
  }

  lemma ThreeRead()
    ensures ReadingsOf([FIRST, RESTART, AGAIN], ("h", "s")) == [Reading(0, 100), Reading(1, 60), Reading(1, 100)]
  {
    var events := [FIRST, RESTART, AGAIN];
    assert events[..2] == [FIRST, RESTART] && events[..2][..1] == [FIRST] && [FIRST][..0] == [];
    assert ReadingsOf([FIRST], ("h", "s")) == [Reading(0, 100)];
    assert ReadingsOf(events[..2], ("h", "s")) == [Reading(0, 100), Reading(1, 60)];
  }

  lemma ThreeIncrements()
    ensures Increments([Reading(0, 100), Reading(1, 60), Reading(1, 100)]) == 200
  {
    IncrementsSnoc([Reading(0, 100)], Reading(1, 60));
    IncrementsSnoc([Reading(0, 100), Reading(1, 60)], Reading(1, 100));
    assert [Reading(0, 100)] + [Reading(1, 60)] == [Reading(0, 100), Reading(1, 60)];
    assert [Reading(0, 100), Reading(1, 60)] + [Reading(1, 100)] == [Reading(0, 100), Reading(1, 60), Reading(1, 100)];
  }

  /** A counter that restarts and comes back to an earlier total of the same turn has its last rise ignored: 40 of
      200 tokens stay uncharged until the counter moves on. */
  lemma RecurringKeyHoldsBack()
    ensures SourceTotal(ApplyAll(EMPTY, [FIRST, RESTART, AGAIN]).usage, ("h", "s")) == 160
    ensures Increments(ReadingsOf([FIRST, RESTART, AGAIN], ("h", "s"))) == 200
    ensures !KeysStayHome([FIRST, RESTART, AGAIN], ("h", "s"))
  {
    hide Apply, ApplyAll, SourceTotal, Increments, ReadingsOf;
    ThreeRead();
    ThreeApplied();
    ThreeCharged();
    ThreeIncrements();
    var events := [FIRST, RESTART, AGAIN];
    assert Naming(events[0]) == Naming(events[2]);
  }
}
