/** The ledger column by column: what a source is charged in each of the six counters, against the counts its readings say. */
module Columns {
  import opened Wrappers
  import opened Wire
  import opened TaskRuntime
  import opened Ledger
  import opened LedgerProofs
  import opened Accounting
  import opened Exactness

  datatype Column = InputColumn | CachedColumn | WriteColumn | OutputColumn | ReasoningColumn | TotalColumn

  function At(c: Tokens, k: Column): int {
    match k
    case InputColumn => c.input
    case CachedColumn => c.cached
    case WriteColumn => c.cacheWrite
    case OutputColumn => c.output
    case ReasoningColumn => c.reasoning
    case TotalColumn => c.total
  }

  function ColumnTotal(usage: seq<LedgerRow>, s: Source, k: Column): int {
    if usage == [] then 0
    else
      var r := usage[|usage| - 1];
      ColumnTotal(usage[..|usage| - 1], s, k) + if (r.hostId, r.sourceId) == s then At(r.delta, k) else 0
  }

  lemma ColumnTotalSnoc(usage: seq<LedgerRow>, row: LedgerRow, s: Source, k: Column)
    ensures ColumnTotal(usage + [row], s, k)
         == ColumnTotal(usage, s, k) + if (row.hostId, row.sourceId) == s then At(row.delta, k) else 0
  {
    assert (usage + [row])[..|usage + [row]| - 1] == usage;
  }

  lemma {:induction false} TotalIsAColumn(usage: seq<LedgerRow>, s: Source)
    ensures ColumnTotal(usage, s, TotalColumn) == SourceTotal(usage, s)
  {
    if usage != [] {
      TotalIsAColumn(usage[..|usage| - 1], s);
    }
  }

  /** What the source's watermark says in a column. */
  function Mark(t: Tables, s: Source, k: Column): int { if s in t.sources then At(t.sources[s].counts, k) else 0 }

  function Rise(before: int, now: int): int { if before < now then now - before else 0 }

  /* ---- One reading ---- */

  /** No counter of `c` is below that of `o`. */
  predicate NoneBelow(o: Tokens, c: Tokens) {
    forall k: Column :: At(o, k) <= At(c, k)
  }

  /** A reading of the source's own epoch in which no counter has fallen is charged what it brings, in every column. */
  lemma ChargesWhatItBrings(p: Prior, e: UsageEvent)
    requires p.found && e.sourceEpoch == p.epoch && NoneBelow(p.counts, e.counts)
    ensures ChargeFor(p, e).Plus(p.counts) == e.counts
  {
    assert At(p.counts, InputColumn) <= At(e.counts, InputColumn) && At(p.counts, CachedColumn) <= At(e.counts, CachedColumn);
    assert At(p.counts, WriteColumn) <= At(e.counts, WriteColumn) && At(p.counts, OutputColumn) <= At(e.counts, OutputColumn);
    assert At(p.counts, ReasoningColumn) <= At(e.counts, ReasoningColumn) && At(p.counts, TotalColumn) <= At(e.counts, TotalColumn);
  }

  /** A reading of a later epoch is charged in full, one whose total fell within the epoch not at all, and any other the rise
      of each counter on its own. */
  lemma ColumnCharge(p: Prior, e: UsageEvent, k: Column)
    ensures At(ChargeFor(p, e), k) ==
            if p.found && p.epoch == e.sourceEpoch && e.counts.total < p.counts.total then 0
            else if (if p.found then p.epoch < e.sourceEpoch else e.counts.total < p.counts.total) then At(e.counts, k)
            else Rise(At(p.counts, k), At(e.counts, k))
  {
  }

  lemma ExactColumn(t: Tables, e: UsageEvent, s: Source, k: Column)
    ensures ColumnTotal(ApplyExact(t, e).usage, s, k)
         == ColumnTotal(t.usage, s, k) + if SourceOf(e) == s && Lands(t, e) then At(ChargeFor(PriorReading(t, e), e), k) else 0
  {
    hide ChargeFor, DedupKey, Clashes, AddToSession, PriorReading, AdvancesSource;
    ColumnTotalSnoc(t.usage, RowFor(PriorReading(t, e), e), s, k);
  }

  /** What an event does to a source's column. */
  lemma {:induction false} ColumnStep(t: Tables, event: UsageEvent, s: Source, k: Column)
    ensures var e := Resolved(t, event);
            ColumnTotal(Apply(t, event).usage, s, k) == ColumnTotal(t.usage, s, k) +
              if Reads(t, event, s) && Lands(t, e) then At(ChargeFor(PriorReading(t, e), e), k) else 0
  {
    hide ApplyExact, Resolved, Noted, ChargeFor, PriorReading, Lands, ColumnTotal;
    if event.eventId in t.ingested {
      assert Apply(t, event) == t;
    } else {
      hide Apply;
      Applied(t, event);
      NotedAlike(t, event);
      ExactColumn(Noted(t, event), Resolved(t, event), s, k);
    }
  }

  /* ---- Conservation in every column ---- */

  // As for the total; `drift` is what the column was charged beside the watermark: it fell while the total rose, or it rose
  // while the total stood.
  datatype ColumnAccount = ColumnAccount(retired: int, forgiven: int, drift: int)

  function PostColumn(t: Tables, event: UsageEvent, a: ColumnAccount, s: Source, k: Column): ColumnAccount {
    var w, n := Mark(t, s, k), At(event.counts, k);
    if Rebases(t, event, s) then
      if s !in t.sources then a.(forgiven := a.forgiven + n)
      else if event.sourceEpoch > t.sources[s].epoch then a.(retired := a.retired + w, forgiven := a.forgiven + n)
      else if event.counts.total > t.sources[s].counts.total then a.(forgiven := a.forgiven + n - w)
      else a
    else if Reads(t, event, s) && Lands(t, Resolved(t, event)) then
      if s in t.sources then
        if event.sourceEpoch > t.sources[s].epoch then a.(retired := a.retired + w)
        else if event.counts.total > t.sources[s].counts.total then a.(drift := a.drift + Rise(n, w))
        else if event.counts.total < t.sources[s].counts.total && event.sourceEpoch == t.sources[s].epoch then a
        else a.(drift := a.drift + Rise(w, n))
      else
        var prior := PriorReading(t, Resolved(t, event)).counts;
        if event.counts.total < prior.total then a
        else a.(forgiven := a.forgiven + if At(prior, k) < n then At(prior, k) else n)
    else a
  }

  function ColumnBooks(events: seq<UsageEvent>, s: Source, k: Column): ColumnAccount {
    if events == [] then ColumnAccount(0, 0, 0)
    else
      var before := events[..|events| - 1];
      PostColumn(ApplyAll(EMPTY, before), events[|events| - 1], ColumnBooks(before, s, k), s, k)
  }

  ghost predicate Balanced(t: Tables, a: ColumnAccount, s: Source, k: Column) {
    ColumnTotal(t.usage, s, k) == a.retired + Mark(t, s, k) - a.forgiven + a.drift
  }

  lemma MarkAfter(t: Tables, event: UsageEvent, s: Source, k: Column)
    ensures var e := Resolved(t, event);
            Mark(Apply(t, event), s, k) ==
            if Reads(t, event, s) && Lands(t, e) && AdvancesSource(PriorReading(t, e), e) then At(event.counts, k)
            else if Rebases(t, event, s) && (s !in t.sources || event.sourceEpoch > t.sources[s].epoch
                                              || event.counts.total > t.sources[s].counts.total) then At(event.counts, k)
            else Mark(t, s, k)
  {
    hide Apply, Resolved, Lands, AdvancesSource, PriorReading, SourceTotal;
    ResolvedCounts(t, event);
    if Reads(t, event, s) {
      StepReading(t, event, s);
    } else if Rebases(t, event, s) {
      StepBaseline(t, event, s);
    } else {
      StepElsewhere(t, event, s);
    }
  }

  lemma ResolvedCounts(t: Tables, event: UsageEvent)
    ensures var e := Resolved(t, event);
            e.counts == event.counts && e.sourceEpoch == event.sourceEpoch && SourceOf(e) == SourceOf(event) && e.kind == event.kind
  {
  }

  lemma PriorOfSource(t: Tables, event: UsageEvent, s: Source)
    requires SourceOf(event) == s
    ensures var p := PriorReading(t, Resolved(t, event));
            (p.found <==> s in t.sources) && (s in t.sources ==> p.epoch == t.sources[s].epoch && p.counts == t.sources[s].counts)
  {
  }

  lemma {:induction false} BalanceStep(t: Tables, event: UsageEvent, a: ColumnAccount, s: Source, k: Column)
    requires Balanced(t, a, s, k)
    ensures Balanced(Apply(t, event), PostColumn(t, event, a, s, k), s, k)
  {
    hide Apply, Resolved, Lands, PriorReading, ChargeFor, At, ColumnTotal;
    ColumnStep(t, event, s, k);
    MarkAfter(t, event, s, k);
    ResolvedCounts(t, event);
    if Reads(t, event, s) {
      PriorOfSource(t, event, s);
      ColumnCharge(PriorReading(t, Resolved(t, event)), Resolved(t, event), k);
    }
  }

  /** For every sequence of events, valid or not, a source has been charged in every column its retired watermarks plus its
      current one, less what was forgiven, plus the drift. */
  lemma {:induction false} ColumnConservation(events: seq<UsageEvent>, s: Source, k: Column)
    ensures Balanced(ApplyAll(EMPTY, events), ColumnBooks(events, s, k), s, k)
  {
    hide Apply, PostColumn, Balanced;
    if events == [] {
      BalancedAtFirst(s, k);
    } else {
      var before, e := events[..|events| - 1], events[|events| - 1];
      ColumnConservation(before, s, k);
      BalanceStep(ApplyAll(EMPTY, before), e, ColumnBooks(before, s, k), s, k);
    }
  }

  lemma BalancedAtFirst(s: Source, k: Column)
    ensures Balanced(EMPTY, ColumnAccount(0, 0, 0), s, k)
  {
  }

  /** The total itself never drifts. */
  lemma {:induction false} TotalDoesNotDrift(events: seq<UsageEvent>, s: Source)
    ensures ColumnBooks(events, s, TotalColumn).drift == 0
  {
    hide Apply, Resolved, Lands, PriorReading;
    if events != [] {
      TotalDoesNotDrift(events[..|events| - 1], s);
    }
  }

  /* ---- Counters that rise together ---- */

  datatype Full = Full(epoch: int, counts: Tokens)

  function FullReadings(events: seq<UsageEvent>, s: Source): seq<Full> {
    if events == [] then []
    else
      var before, e := events[..|events| - 1], events[|events| - 1];
      if e.kind.ExactUsage? && SourceOf(e) == s && e.eventId !in Ids(before)
      then FullReadings(before, s) + [Full(e.sourceEpoch, e.counts)]
      else FullReadings(before, s)
  }

  /** No counter falls, and none moves while the total stands. */
  predicate Rises(a: Tokens, b: Tokens) {
    NoneBelow(a, b) && (a.total == b.total ==> a == b)
  }

  /** Within an epoch the counters rise together, and without a total nothing was used. */
  ghost predicate RisingReadings(fs: seq<Full>) {
    && (forall i :: 0 <= i < |fs| - 1 ==>
          fs[i].epoch < fs[i + 1].epoch || (fs[i].epoch == fs[i + 1].epoch && Rises(fs[i].counts, fs[i + 1].counts)))
    && (forall i :: 0 <= i < |fs| && fs[i].counts.total == 0 ==> fs[i].counts == ZERO)
  }

  /** Baselines come first, and the first reading continues from them in every column. */
  ghost predicate BaselineRises(events: seq<UsageEvent>, s: Source) {
    events == [] ||
    var before, e := events[..|events| - 1], events[|events| - 1];
    var t := ApplyAll(EMPTY, before);
    && BaselineRises(before, s)
    && (Rebases(t, e, s) ==> ReadingsOf(before, s) == [])
    && (Reads(t, e, s) && ReadingsOf(before, s) == [] && s in t.sources ==>
          e.sourceEpoch == t.sources[s].epoch && Rises(t.sources[s].counts, e.counts))
  }

  function ColumnIncrement(a: Full, b: Full, k: Column): int {
    if a.epoch == b.epoch then At(b.counts, k) - At(a.counts, k) else At(b.counts, k)
  }

  /** The usage the readings describe in a column: the first in full, then every rise, and every restart in full. */
  function ColumnIncrements(fs: seq<Full>, k: Column): int {
    if fs == [] then 0
    else if |fs| == 1 then At(fs[0].counts, k)
    else ColumnIncrements(fs[..|fs| - 1], k) + ColumnIncrement(fs[|fs| - 2], fs[|fs| - 1], k)
  }

  lemma ColumnIncrementsSnoc(fs: seq<Full>, f: Full, k: Column)
    ensures ColumnIncrements(fs + [f], k)
         == ColumnIncrements(fs, k) + if fs == [] then At(f.counts, k) else ColumnIncrement(fs[|fs| - 1], f, k)
    ensures fs == [] ==> ColumnIncrements(fs, k) == 0
  {
    assert (fs + [f])[..|fs + [f]| - 1] == fs;
  }

  lemma RisingPrefix(fs: seq<Full>, f: Full)
    requires RisingReadings(fs + [f])
    ensures RisingReadings(fs) && (f.counts.total == 0 ==> f.counts == ZERO)
    ensures fs != [] ==> var l := fs[|fs| - 1]; l.epoch < f.epoch || (l.epoch == f.epoch && Rises(l.counts, f.counts))
  {
    hide Rises;
    var all := fs + [f];
    assert all[|fs|] == f && forall i :: 0 <= i < |fs| ==> all[i] == fs[i];
    forall i | 0 <= i < |fs| - 1
      ensures fs[i].epoch < fs[i + 1].epoch || (fs[i].epoch == fs[i + 1].epoch && Rises(fs[i].counts, fs[i + 1].counts))
    {
      assert all[i] == fs[i] && all[i + 1] == fs[i + 1];
    }
    if fs != [] {
      assert all[|fs| - 1] == fs[|fs| - 1] && all[|fs| - 1 + 1] == f;
    }
  }

  lemma RisesTrans(a: Tokens, b: Tokens, c: Tokens)
    requires Rises(a, b) && Rises(b, c)
    ensures Rises(a, c)
  {
    forall k: Column ensures At(a, k) <= At(c, k) {
      assert At(a, k) <= At(b, k) <= At(c, k);
    }
    assert At(a, TotalColumn) <= At(b, TotalColumn) <= At(c, TotalColumn);
  }

  /** How far the last reading is ahead, in a column, of what the watermark has recorded of its epoch. */
  function PendingColumn(t: Tables, s: Source, fs: seq<Full>, k: Column): int {
    if fs == [] then 0
    else
      var last := fs[|fs| - 1];
      if s in t.sources && t.sources[s].epoch == last.epoch then At(last.counts, k) - Mark(t, s, k) else At(last.counts, k)
  }

  ghost function LostColumn(events: seq<UsageEvent>, s: Source, k: Column): int {
    if events == [] then 0
    else
      var before, e := events[..|events| - 1], events[|events| - 1];
      var t, fs := ApplyAll(EMPTY, before), FullReadings(before, s);
      LostColumn(before, s, k) +
        if Reads(t, e, s) && fs != [] && fs[|fs| - 1].epoch < e.sourceEpoch then PendingColumn(t, s, fs, k) else 0
  }

  /** The watermark is one of the source's own readings, or comes before them. */
  ghost predicate OnTheWay(t: Tables, s: Source, fs: seq<Full>) {
    s in t.sources && fs != [] ==>
      && t.sources[s].epoch <= fs[|fs| - 1].epoch
      && (t.sources[s].epoch == fs[|fs| - 1].epoch ==> Rises(t.sources[s].counts, fs[|fs| - 1].counts))
  }

  ghost predicate ColumnReconciled(t: Tables, a: ColumnAccount, lost: int, s: Source, fs: seq<Full>, k: Column) {
    && a.drift == 0 && 0 <= lost
    && OnTheWay(t, s, fs)
    && if fs == [] then a.retired == 0 && a.forgiven == Mark(t, s, k) && lost == 0
       else
         && 0 <= PendingColumn(t, s, fs, k)
         && (s !in t.sources ==> a.retired == 0)
         && ColumnIncrements(fs, k) == a.retired + Mark(t, s, k) + PendingColumn(t, s, fs, k) + lost
  }

  /** The source's counter after a reading. */
  lemma CounterAfterReading(t: Tables, event: UsageEvent, s: Source)
    requires Reads(t, event, s)
    ensures var e := Resolved(t, event);
            Watched(Apply(t, event), s) ==
            if Lands(t, e) && (s !in t.sources || event.sourceEpoch > t.sources[s].epoch || event.counts.total > t.sources[s].counts.total)
            then Some(Counter(event.sourceEpoch, event.counts)) else Watched(t, s)
  {
    hide Apply, Resolved, Lands, PriorReading, SourceTotal;
    StepReading(t, event, s);
    ResolvedCounts(t, event);
    PriorOfSource(t, event, s);
  }

  /** The watermark stays among the source's readings. */
  lemma StaysOnTheWay(t: Tables, event: UsageEvent, s: Source, fs: seq<Full>)
    requires OnTheWay(t, s, fs) && Reads(t, event, s) && RisingReadings(fs + [Full(event.sourceEpoch, event.counts)])
    requires fs == [] && s in t.sources ==> event.sourceEpoch == t.sources[s].epoch && Rises(t.sources[s].counts, event.counts)
    ensures OnTheWay(Apply(t, event), s, fs + [Full(event.sourceEpoch, event.counts)])
    ensures s in t.sources ==> t.sources[s].epoch <= event.sourceEpoch
    ensures s in t.sources && t.sources[s].epoch == event.sourceEpoch ==> Rises(t.sources[s].counts, event.counts)
  {
    hide Apply, Resolved, Lands, RisingReadings;
    var f := Full(event.sourceEpoch, event.counts);
    CounterAfterReading(t, event, s);
    RisingPrefix(fs, f);
    assert Rises(f.counts, f.counts);
    if s in t.sources && fs != [] && t.sources[s].epoch == fs[|fs| - 1].epoch == f.epoch {
      RisesTrans(t.sources[s].counts, fs[|fs| - 1].counts, f.counts);
    }
    hide Rises;
  }

  /** What a reading adds to the books and the watermark. */
  lemma ReadingAmount(t: Tables, event: UsageEvent, a: ColumnAccount, s: Source, k: Column)
    requires Reads(t, event, s)
    requires s in t.sources ==> t.sources[s].epoch <= event.sourceEpoch
    requires s in t.sources && t.sources[s].epoch == event.sourceEpoch ==> Rises(t.sources[s].counts, event.counts)
    ensures var u, b := Apply(t, event), PostColumn(t, event, a, s, k);
            && b.drift == a.drift
            && (if Lands(t, Resolved(t, event)) then s in u.sources && u.sources[s] == Counter(event.sourceEpoch, event.counts)
                else Watched(u, s) == Watched(t, s))
            && b.retired == a.retired + if Lands(t, Resolved(t, event)) && s in t.sources && t.sources[s].epoch < event.sourceEpoch
                                        then Mark(t, s, k) else 0
  {
    hide Apply, Resolved, Lands, PriorReading;
    CounterAfterReading(t, event, s);
    if s in t.sources && t.sources[s].epoch == event.sourceEpoch {
      assert At(t.sources[s].counts, k) <= At(event.counts, k) && At(t.sources[s].counts, TotalColumn) <= At(event.counts, TotalColumn);
    }
  }

  lemma {:induction false} ReadingReconciles(t: Tables, event: UsageEvent, a: ColumnAccount, lost: int, s: Source, fs: seq<Full>, k: Column)
    requires ColumnReconciled(t, a, lost, s, fs, k) && Reads(t, event, s) && event.counts.NonNegative()
    requires RisingReadings(fs + [Full(event.sourceEpoch, event.counts)])
    requires fs == [] && s in t.sources ==> event.sourceEpoch == t.sources[s].epoch && Rises(t.sources[s].counts, event.counts)
    ensures var carried := if fs != [] && fs[|fs| - 1].epoch < event.sourceEpoch then PendingColumn(t, s, fs, k) else 0;
            ColumnReconciled(Apply(t, event), PostColumn(t, event, a, s, k), lost + carried, s, fs + [Full(event.sourceEpoch, event.counts)], k)
  {
    hide Apply, Resolved, Lands, PriorReading, RisingReadings, ColumnIncrements, OnTheWay, PostColumn, Reads;
    var f := Full(event.sourceEpoch, event.counts);
    StaysOnTheWay(t, event, s, fs);
    ReadingAmount(t, event, a, s, k);
    ColumnIncrementsSnoc(fs, f, k);
    RisingPrefix(fs, f);
    RisesBy(t, event, s, k);
    StoredBefore(t, s, fs);
    hide Rises;
  }

  lemma RisesBy(t: Tables, event: UsageEvent, s: Source, k: Column)
    requires event.counts.NonNegative()
    ensures 0 <= At(event.counts, k)
    ensures s in t.sources && Rises(t.sources[s].counts, event.counts) ==> Mark(t, s, k) <= At(event.counts, k)
  {
  }

  lemma StoredBefore(t: Tables, s: Source, fs: seq<Full>)
    requires OnTheWay(t, s, fs)
    ensures s in t.sources && fs != [] ==> t.sources[s].epoch <= fs[|fs| - 1].epoch
  {
  }

  lemma OtherReconciles(t: Tables, event: UsageEvent, a: ColumnAccount, lost: int, s: Source, fs: seq<Full>, k: Column)
    requires ColumnReconciled(t, a, lost, s, fs, k) && !Reads(t, event, s)
    requires Rebases(t, event, s) ==> event.sourceEpoch == 0 && fs == [] && (s in t.sources ==> 0 <= t.sources[s].epoch)
    ensures ColumnReconciled(Apply(t, event), PostColumn(t, event, a, s, k), lost, s, fs, k)
  {
    hide Apply, SourceTotal;
    if Rebases(t, event, s) {
      StepBaseline(t, event, s);
    } else {
      StepElsewhere(t, event, s);
    }
  }

  /* ---- Whole runs ---- */

  lemma {:induction false} FullTotals(events: seq<UsageEvent>, s: Source)
    ensures |FullReadings(events, s)| == |ReadingsOf(events, s)|
    ensures forall i :: 0 <= i < |FullReadings(events, s)| ==>
              ReadingsOf(events, s)[i] == Reading(FullReadings(events, s)[i].epoch, FullReadings(events, s)[i].counts.total)
  {
    if events != [] {
      FullTotals(events[..|events| - 1], s);
    }
  }

  lemma RisingIsOrdered(events: seq<UsageEvent>, s: Source)
    requires RisingReadings(FullReadings(events, s))
    ensures Ordered(ReadingsOf(events, s))
  {
    FullTotals(events, s);
    var fs, rs := FullReadings(events, s), ReadingsOf(events, s);
    forall i | 0 <= i < |rs| - 1
      ensures rs[i].epoch < rs[i + 1].epoch || (rs[i].epoch == rs[i + 1].epoch && rs[i].total <= rs[i + 1].total)
    {
      if fs[i].epoch == fs[i + 1].epoch {
        assert At(fs[i].counts, TotalColumn) <= At(fs[i + 1].counts, TotalColumn);
      }
    }
  }

  lemma {:induction false} RisingBaselineFirst(events: seq<UsageEvent>, s: Source)
    requires BaselineRises(events, s)
    ensures BaselineFirst(events, s)
  {
    hide Apply;
    if events != [] {
      var before, e := events[..|events| - 1], events[|events| - 1];
      var t := ApplyAll(EMPTY, before);
      RisingBaselineFirst(before, s);
      if s in t.sources && Rises(t.sources[s].counts, e.counts) {
        assert At(t.sources[s].counts, TotalColumn) <= At(e.counts, TotalColumn);
      }
    }
  }

  lemma ReconciledAtStart(s: Source, k: Column)
    ensures ColumnReconciled(EMPTY, ColumnAccount(0, 0, 0), 0, s, [], k)
  {
  }

  lemma {:induction false} ColumnsReconcile(events: seq<UsageEvent>, s: Source, k: Column)
    requires forall i :: 0 <= i < |events| ==> ValidUsageEvent(events[i])
    requires EpochsFromZero(events, s) && RisingReadings(FullReadings(events, s)) && BaselineRises(events, s)
    ensures ColumnReconciled(ApplyAll(EMPTY, events), ColumnBooks(events, s, k), LostColumn(events, s, k), s, FullReadings(events, s), k)
  {
    hide Apply, ColumnReconciled, PostColumn, PendingColumn, ColumnIncrements, Rises, RisingReadings, EpochsFromZero;
    if events == [] {
      ReconciledAtStart(s, k);
    } else {
      var before, e := events[..|events| - 1], events[|events| - 1];
      var t, fs := ApplyAll(EMPTY, before), FullReadings(before, s);
      assert events == before + [e] && ValidUsageEvent(e);
      IngestedIds(EMPTY, before);
      FullTotals(before, s);
      EpochsBefore(before, e, s);
      if Reads(t, e, s) {
        RisingPrefix(fs, Full(e.sourceEpoch, e.counts));
        ColumnsReconcile(before, s, k);
        ReadingReconciles(t, e, ColumnBooks(before, s, k), LostColumn(before, s, k), s, fs, k);
      } else {
        ColumnsReconcile(before, s, k);
        BaselineAtZero(before, e, s);
        OtherReconciles(t, e, ColumnBooks(before, s, k), LostColumn(before, s, k), s, fs, k);
      }
    }
  }

  lemma BaselineAtZero(before: seq<UsageEvent>, e: UsageEvent, s: Source)
    requires forall i :: 0 <= i < |before| ==> ValidUsageEvent(before[i])
    requires EpochsFromZero(before + [e], s)
    requires Rebases(ApplyAll(EMPTY, before), e, s) ==> ReadingsOf(before, s) == []
    ensures Rebases(ApplyAll(EMPTY, before), e, s) ==>
              e.sourceEpoch == 0 && (s in ApplyAll(EMPTY, before).sources ==> 0 <= ApplyAll(EMPTY, before).sources[s].epoch)
  {
    hide Apply;
    assert (before + [e])[|before|] == e;
    EpochsBefore(before, e, s);
    if Rebases(ApplyAll(EMPTY, before), e, s) {
      BaselineCounter(before, s);
    }
  }

  /** What holds for the total by the way its readings were kept holds for every column. */
  lemma NothingPendingColumn(t: Tables, s: Source, fs: seq<Full>, rs: seq<Reading>, k: Column)
    requires OnTheWay(t, s, fs) && RisingReadings(fs) && |rs| == |fs|
    requires forall i :: 0 <= i < |fs| ==> rs[i] == Reading(fs[i].epoch, fs[i].counts.total)
    requires Pending(t, s, rs) == 0
    ensures PendingColumn(t, s, fs, k) == 0
  {
  }

  lemma {:induction false} NothingLostColumn(events: seq<UsageEvent>, s: Source, k: Column)
    requires forall i :: 0 <= i < |events| ==> ValidUsageEvent(events[i])
    requires EpochsFromZero(events, s) && RisingReadings(FullReadings(events, s)) && BaselineRises(events, s)
    requires EpochsEndKept(events, s)
    ensures LostColumn(events, s, k) == 0
  {
    hide Apply, ColumnReconciled, PostColumn, PendingColumn, Pending, ColumnIncrements, Rises, RisingReadings, EpochsFromZero, LastKept,
      OnTheWay, Ordered;
    if events != [] {
      var before, e := events[..|events| - 1], events[|events| - 1];
      var t, fs := ApplyAll(EMPTY, before), FullReadings(before, s);
      assert events == before + [e];
      IngestedIds(EMPTY, before);
      FullTotals(before, s);
      EpochsBefore(before, e, s);
      if Reads(t, e, s) {
        RisingPrefix(fs, Full(e.sourceEpoch, e.counts));
      }
      NothingLostColumn(before, s, k);
      if Reads(t, e, s) && fs != [] && fs[|fs| - 1].epoch < e.sourceEpoch {
        LastKeptColumn(before, s, k);
      }
    }
  }

  lemma LastKeptColumn(events: seq<UsageEvent>, s: Source, k: Column)
    requires forall i :: 0 <= i < |events| ==> ValidUsageEvent(events[i])
    requires EpochsFromZero(events, s) && RisingReadings(FullReadings(events, s)) && BaselineRises(events, s)
    requires LastKept(events, s)
    ensures PendingColumn(ApplyAll(EMPTY, events), s, FullReadings(events, s), k) == 0
  {
    hide ApplyAll, FullReadings, ReadingsOf, Pending, LastKept, EpochsEndKept, Ordered, BaselineFirst, BaselineRises, EpochsFromZero,
      RisingReadings, PendingColumn, ColumnIncrements, Rises, ColumnBooks, LostColumn;
    RisingIsOrdered(events, s);
    RisingBaselineFirst(events, s);
    ShortfallIsIgnored(events, s);
    ColumnsReconcile(events, s, k);
    FullTotals(events, s);
    NothingPendingColumn(ApplyAll(EMPTY, events), s, FullReadings(events, s), ReadingsOf(events, s), k);
  }

  /** Counters that rise together are accounted for column by column: what the readings add up to is what was charged, plus
      what was forgiven, plus what ignored readings lost or still hold back; nothing is charged beyond them, and exactly they
      are when every reading that closes an epoch, and the last, was kept. */
  lemma {:induction false} ColumnsExact(events: seq<UsageEvent>, s: Source, k: Column)
    requires forall i :: 0 <= i < |events| ==> ValidUsageEvent(events[i])
    requires EpochsFromZero(events, s) && RisingReadings(FullReadings(events, s)) && BaselineRises(events, s)
    requires FullReadings(events, s) != []
    ensures var t, fs := ApplyAll(EMPTY, events), FullReadings(events, s);
            var charged, forgiven := ColumnTotal(t.usage, s, k), ColumnBooks(events, s, k).forgiven;
            && charged + forgiven + LostColumn(events, s, k) + PendingColumn(t, s, fs, k) == ColumnIncrements(fs, k)
            && 0 <= LostColumn(events, s, k) && 0 <= PendingColumn(t, s, fs, k)
            && charged + forgiven <= ColumnIncrements(fs, k)
            && (LastKept(events, s) && EpochsEndKept(events, s) ==> charged + forgiven == ColumnIncrements(fs, k))
            && (KeysStayHome(events, s) ==> charged + forgiven == ColumnIncrements(fs, k))
  {
    hide ApplyAll, FullReadings, ReadingsOf, Pending, LastKept, EpochsEndKept, Ordered, BaselineFirst, BaselineRises, EpochsFromZero,
      RisingReadings, PendingColumn, ColumnIncrements, Rises, ColumnBooks, LostColumn, KeysStayHome, ColumnTotal, Lost;
    ColumnsReconcile(events, s, k);
    ColumnConservation(events, s, k);
    if KeysStayHome(events, s) {
      RisingIsOrdered(events, s);
      RisingBaselineFirst(events, s);
      FullyCountedAlways(events, s);
      ShortfallIsIgnored(events, s);
    }
    if LastKept(events, s) && EpochsEndKept(events, s) {
      LastKeptColumn(events, s, k);
      NothingLostColumn(events, s, k);
    }
  }

  /* ---- A counter that falls while the total rises ---- */

  function OutputReading(id: string, turn: string, total: int, output: int): UsageEvent {
    TurnReading(id, 0, turn, total).(counts := Tokens(0, 0, 0, output, 0, total))
  }

  const TEN := OutputReading("1", "A", 100, 10)
  const FIVE := OutputReading("2", "B", 200, 5)
  const TEN_AGAIN := OutputReading("3", "C", 300, 10)

  lemma FirstTurn()
    ensures var t := Apply(EMPTY, TEN);
            && t.usage == [RowFor(Prior(false, 0, ZERO), TEN)] && RowFor(Prior(false, 0, ZERO), TEN).delta.output == 10
            && t.sources == map[("h", "s") := Counter(0, TEN.counts)] && t.ingested == {Raw("1")}
  {
    hide ApplyRuntime;
    assert ResolveParent(map[], TEN) == TEN;
  }

  lemma SecondTurn(t: Tables)
    requires t == Apply(EMPTY, TEN)
    ensures var u := Apply(t, FIVE);
            && u.usage == t.usage + [RowFor(Prior(true, 0, TEN.counts), FIVE)] && RowFor(Prior(true, 0, TEN.counts), FIVE).delta.output == 0
            && u.sources == map[("h", "s") := Counter(0, FIVE.counts)] && u.ingested == {Raw("1"), Raw("2")}
  {
    hide ApplyRuntime, DedupKey, AddToSession, Settle;
    FirstTurn();
    OwnKeys();
    NamedParent(t.sessions, FIVE);
  }

  lemma ThirdTurn(u: Tables)
    requires u == Apply(Apply(EMPTY, TEN), FIVE)
    ensures Apply(u, TEN_AGAIN).usage == u.usage + [RowFor(Prior(true, 0, FIVE.counts), TEN_AGAIN)]
    ensures RowFor(Prior(true, 0, FIVE.counts), TEN_AGAIN).delta.output == 5
  {
    hide ApplyRuntime, DedupKey, AddToSession, Settle;
    FirstTurn();
    SecondTurn(Apply(EMPTY, TEN));
    OwnKeys();
    NamedParent(u.sessions, TEN_AGAIN);
  }

  lemma NamedParent(sessions: map<Conversation, Session>, e: UsageEvent)
    requires e.parentId != ""
    ensures ResolveParent(sessions, e) == e
  {
  }

  lemma TurnKey(e: UsageEvent, m: int)
    requires e.responseId == "" && e.turnId != ""
    ensures DedupKey(e, m).Digest? && |DedupKey(e, m).parts| == 3 && DedupKey(e, m).parts[2] == Number(e.counts.total)
  {
  }

  lemma OwnKeys()
    ensures forall m, n :: DedupKey(TEN, m) != DedupKey(TEN_AGAIN, n) && DedupKey(FIVE, m) != DedupKey(TEN_AGAIN, n)
    ensures forall m, n :: DedupKey(TEN, m) != DedupKey(FIVE, n)
  {
    hide DedupKey;
    forall m, n
      ensures DedupKey(TEN, m) != DedupKey(TEN_AGAIN, n) && DedupKey(FIVE, m) != DedupKey(TEN_AGAIN, n)
              && DedupKey(TEN, m) != DedupKey(FIVE, n)
    {
      TurnKey(TEN, m);
      TurnKey(FIVE, m);
      TurnKey(FIVE, n);
      TurnKey(TEN_AGAIN, n);
    }
  }

  lemma OneByOne(a: UsageEvent, b: UsageEvent, c: UsageEvent)
    ensures ApplyAll(EMPTY, [a, b, c]) == Apply(Apply(Apply(EMPTY, a), b), c)
  {
    hide Apply;
    assert [a][..0] == [] && [a, b][..1] == [a] && [a, b, c][..2] == [a, b];
    assert ApplyAll(EMPTY, [a]) == Apply(ApplyAll(EMPTY, []), a);
    assert ApplyAll(EMPTY, [a, b]) == Apply(ApplyAll(EMPTY, [a]), b);
    assert ApplyAll(EMPTY, [a, b, c]) == Apply(ApplyAll(EMPTY, [a, b]), c);
  }

  /** Output that reads 10, then 5, then 10 while the total goes on rising is charged 15: nothing for the fall, and what it makes
      up afterwards once more. Here the drift of the column is 5. */
  lemma FallingColumnIsChargedAgain()
    ensures ColumnTotal(ApplyAll(EMPTY, [TEN, FIVE, TEN_AGAIN]).usage, ("h", "s"), OutputColumn) == 15
  {
    hide Apply, ApplyAll, RowFor;
    var s := ("h", "s");
    var t := Apply(EMPTY, TEN);
    var u := Apply(t, FIVE);
    var v := Apply(u, TEN_AGAIN);
    OneByOne(TEN, FIVE, TEN_AGAIN);
    FirstTurn();
    SecondTurn(t);
    ThirdTurn(u);
    OwnRows();
    ColumnTotalSnoc([], RowFor(Prior(false, 0, ZERO), TEN), s, OutputColumn);
    assert [] + t.usage == t.usage;
    ColumnTotalSnoc(t.usage, RowFor(Prior(true, 0, TEN.counts), FIVE), s, OutputColumn);
    ColumnTotalSnoc(u.usage, RowFor(Prior(true, 0, FIVE.counts), TEN_AGAIN), s, OutputColumn);
  }

  lemma OwnRows()
    ensures forall p: Prior, e: UsageEvent :: (RowFor(p, e).hostId, RowFor(p, e).sourceId) == (e.hostId, e.sourceId)
  {
  }
}
