/** What the rows on the page are: the numeric protocol over views that are built, kept, rebuilt and forgotten, against
    the full query of the ledger each view was read from. */
module Shown {
  import opened Wrappers
  import opened Wire
  import opened Snapshots
  import opened Incremental
  import opened Browser
  import opened NumericViews
  import opened Replication

  /** The ledger that readers pin with each data revision of each run of the server. */
  type Ledgers = map<(string, int), seq<Entry>>

  /** A later data revision sees an extension. */
  ghost predicate Announced(ledgers: Ledgers) {
    && (forall k :: k in ledgers ==> Table(ledgers[k]) && forall i :: 0 <= i < |ledgers[k]| ==> 0 < ledgers[k][i].id)
    && (forall e, i, j :: (e, i) in ledgers && (e, j) in ledgers && i <= j ==> ledgers[(e, i)] <= ledgers[(e, j)])
  }

  /** A view shows the full query of its window over the ledger of its data revision. */
  ghost predicate ShowsQuery(ledgers: Ledgers, v: Snapshot) {
    && (v.head.epoch, v.head.dataRevision) in ledgers
    && var ledger := ledgers[(v.head.epoch, v.head.dataRevision)];
    && v.head.ledgerRevision == MaxId(ledger)
    && Shows(v.sessions, ledger, v.head.rangeStart, v.head.rangeEnd, None)
  }

  /** `v` was built on `prior`: the scope decided, the query answered, the rows merged. */
  ghost predicate BuiltOn(ledgers: Ledgers, prior: Snapshot, v: Snapshot, found: seq<Row>) {
    && (v.head.epoch, v.head.dataRevision) in ledgers
    && var ledger := ledgers[(v.head.epoch, v.head.dataRevision)];
    && var b := Build(ledger, Mark(v.head.epoch, v.head.fullRevision),
                      Range(v.head.period, v.head.queryKey, v.head.rangeStart, v.head.rangeEnd), found);
    && v.head.ledgerRevision == MaxId(ledger)
    && Shows(found, ledger, v.head.rangeStart, v.head.rangeEnd, ScopeFor(prior, b))
    && v.sessions == Merged(ScopeFor(prior, b), prior.sessions, found)
  }

  ghost predicate Rebuilds(ledgers: Ledgers, prior: Snapshot, v: Snapshot) {
    exists found :: BuiltOn(ledgers, prior, v, found)
  }

  /** What a step asks of the reader behind it. A full answer is built from scratch; a publication's view is built on the
      stored one, by a reader that pinned no earlier data revision. */
  ghost predicate Genuinely(ledgers: Ledgers, s: System, step: Step) {
    match step
    case Get(built, _) => ShowsQuery(ledgers, built)
    case Push(key, next, _, _) =>
      next.Some? && key in s.store.entries ==>
        var prior := s.store.entries[key].value;
        Rebuilds(ledgers, prior, next.value) && prior.head.dataRevision <= next.value.head.dataRevision
    case _ => true
  }

  /** Every build of the run is genuine. */
  ghost predicate Truthful(ledgers: Ledgers, epoch: string, steps: seq<Step>) {
    forall i :: 0 <= i < |steps| ==> Genuinely(ledgers, Run(epoch, steps[..i]), steps[i])
  }

  /* ---- Every recorded view ---- */

  ghost predicate HistoryShows(ledgers: Ledgers, s: System) {
    forall k :: k in s.history ==> ShowsQuery(ledgers, s.history[k])
  }

  lemma RebuildShows(ledgers: Ledgers, prior: Snapshot, v: Snapshot)
    requires Announced(ledgers) && ShowsQuery(ledgers, prior) && Rebuilds(ledgers, prior, v)
    requires v.head.epoch == prior.head.epoch && prior.head.dataRevision <= v.head.dataRevision
    ensures ShowsQuery(ledgers, v)
  {
    hide Shows, ScopeFor, Merged, MaxId;
    var found :| BuiltOn(ledgers, prior, v, found);
    var before, ledger := ledgers[(prior.head.epoch, prior.head.dataRevision)], ledgers[(v.head.epoch, v.head.dataRevision)];
    BuildShowsFullQuery(prior, before, Build(ledger, Mark(v.head.epoch, v.head.fullRevision),
                                             Range(v.head.period, v.head.queryKey, v.head.rangeStart, v.head.rangeEnd), found));
  }

  lemma AdoptShows(ledgers: Ledgers, s: System, built: Snapshot, at: Instant)
    requires HistoryShows(ledgers, s) && ShowsQuery(ledgers, built) && built.head.epoch == s.epoch
    ensures var (store, v) := Adopt(s.store, built, at); HistoryShows(ledgers, s.(history := Recorded(s, store, v)))
  {
    hide Shows, Stays;
  }

  lemma PushShows(ledgers: Ledgers, s: System, key: string, next: Option<Snapshot>, at: Instant, large: bool)
    requires Announced(ledgers) && Inv(s) && HistoryShows(ledgers, s)
    requires next.Some? ==> Built(s, next.value) && next.value.head.queryKey == key
    requires Genuinely(ledgers, s, Push(key, next, at, large))
    ensures HistoryShows(ledgers, AfterPush(s, key, next, at, large))
  {
    hide ShowsQuery, Rebuilds, Adopt, Difference, Genuine, WellRecorded, DistinctKeys, Faithful;
    if next.Some? && key in s.store.entries {
      var prior := s.store.entries[key].value;
      assert InHistory(s.history, prior);
      RebuildShows(ledgers, prior, next.value);
      AdoptShows(ledgers, s, next.value, at);
    } else {
      IdlePush(s, key, next, at, large);
    }
  }

  lemma StepShows(ledgers: Ledgers, s: System, step: Step)
    requires Announced(ledgers) && Inv(s) && HistoryShows(ledgers, s) && Genuinely(ledgers, s, step)
    ensures HistoryShows(ledgers, Next(s, step))
  {
    hide ShowsQuery, Inv, Adopt, AcceptsSnapshot, ApplyNumbers, AfterPush, Announced, Rebuilds;
    match step
    case Get(built, at) => if Built(s, built) { AdoptShows(ledgers, s, built, at); }
    case Push(key, next, at, large) =>
      if next.Some? ==> Built(s, next.value) && next.value.head.queryKey == key {
        PushShows(ledgers, s, key, next, at, large);
      }
    case _ =>
  }

  lemma {:induction false} HistoryAlwaysShows(ledgers: Ledgers, epoch: string, steps: seq<Step>)
    requires Announced(ledgers) && Truthful(ledgers, epoch, steps)
    ensures HistoryShows(ledgers, Run(epoch, steps))
  {
    hide Next, Inv, ShowsQuery, Genuinely, Announced;
    if steps != [] {
      var n := |steps| - 1;
      var s := Run(epoch, steps[..n]);
      TruthfulBefore(ledgers, epoch, steps);
      HistoryAlwaysShows(ledgers, epoch, steps[..n]);
      InvAlways(epoch, steps[..n]);
      assert Genuinely(ledgers, s, steps[n]);
      StepShows(ledgers, s, steps[n]);
    }
  }

  lemma TruthfulBefore(ledgers: Ledgers, epoch: string, steps: seq<Step>)
    requires steps != [] && Truthful(ledgers, epoch, steps)
    ensures Truthful(ledgers, epoch, steps[..|steps| - 1])
  {
    hide Genuinely, Run;
    var n := |steps| - 1;
    forall i | 0 <= i < n ensures Genuinely(ledgers, Run(epoch, steps[..n][..i]), steps[..n][i]) {
      assert steps[..n][..i] == steps[..i];
    }
  }

  /* ---- The page ---- */

  /** Rows by key that are exactly the conversations with usage in the window, with their tokens. */
  ghost predicate ShowsByKey(rows: map<Key, Row>, ledger: seq<Entry>, start: Instant, end: Instant) {
    && (forall k :: k in rows <==> KeyTotal(ledger, start, end, k).Some?)
    && (forall k :: k in rows ==> KeyTotal(ledger, start, end, k) == Some(rows[k].counts))
  }

  lemma {:induction false} RowMapRows(rows: seq<Row>)
    ensures forall k :: k in RowMap(rows) ==> RowMap(rows)[k] in rows && RowMap(rows)[k].key == k
    ensures forall r :: r in rows ==> r.key in RowMap(rows)
  {
    if rows != [] {
      RowMapRows(rows[..|rows| - 1]);
      assert rows == rows[..|rows| - 1] + [rows[|rows| - 1]];
    }
  }

  lemma ListedByKey(list: seq<Row>, ledger: seq<Entry>, start: Instant, end: Instant)
    requires Shows(list, ledger, start, end, None)
    ensures ShowsByKey(RowMap(list), ledger, start, end)
  {
    hide KeyTotal;
    RowMapRows(list);
    forall k ensures k in RowMap(list) <==> KeyTotal(ledger, start, end, k).Some? {
      if KeyTotal(ledger, start, end, k).Some? {
        assert Listed(list, k);
        var r :| r in list && r.key == k;
      }
    }
  }

  /** Every view the server ever gave a revision — built in full, rebuilt incrementally on whichever view the store had
      kept, adopted, forgotten and built again — shows the full query of the ledger it was read from. */
  lemma EveryViewShowsQuery(ledgers: Ledgers, epoch: string, steps: seq<Step>, k: (string, int))
    requires Announced(ledgers) && Truthful(ledgers, epoch, steps)
    requires k in Run(epoch, steps).history
    ensures ShowsQuery(ledgers, Run(epoch, steps).history[k])
  {
    HistoryAlwaysShows(ledgers, epoch, steps);
  }

  /** And so do the rows on the page, whichever answers and patches brought them there: at its epoch, query and revision
      the browser shows exactly the conversations with usage in the view's window, and their tokens, in the ledger of the
      view's data revision. */
  lemma PageShowsQuery(ledgers: Ledgers, epoch: string, steps: seq<Step>)
    requires Announced(ledgers) && Truthful(ledgers, epoch, steps)
    requires Run(epoch, steps).browser.Some?
    ensures var b := Run(epoch, steps).browser.value;
            && (b.head.epoch, b.head.dataRevision) in ledgers
            && ShowsByKey(RowMap(b.sessions), ledgers[(b.head.epoch, b.head.dataRevision)], b.head.rangeStart, b.head.rangeEnd)
  {
    hide Run, Shows, RowMap;
    HistoryAlwaysShows(ledgers, epoch, steps);
    BrowserIsFaithful(epoch, steps);
    var b := Run(epoch, steps).browser.value;
    var v := Run(epoch, steps).history[(b.head.epoch, b.head.revision)];
    assert ShowsQuery(ledgers, v);
    ListedByKey(v.sessions, ledgers[(v.head.epoch, v.head.dataRevision)], v.head.rangeStart, v.head.rangeEnd);
  }

  /* ---- The newest data ---- */

  /** The views built for a query since the store last had none of it: every full answer, and every publication's view. */
  ghost function BuiltFor(epoch: string, steps: seq<Step>, key: string): seq<Snapshot> {
    if steps == [] then []
    else
      var before, s := BuiltFor(epoch, steps[..|steps| - 1], key), Run(epoch, steps[..|steps| - 1]);
      match steps[|steps| - 1]
      case Restart(other) => if other != "" && (forall k :: k in s.history ==> k.0 != other) then [] else before
      case Forget(k) => if k == key then [] else before
      case Get(built, _) => if Built(s, built) && built.head.queryKey == key then before + [built] else before
      case Push(k, next, _, _) =>
        if k == key && before != [] && next.Some? && Built(s, next.value) && next.value.head.queryKey == key
        then before + [next.value] else before
      case _ => before
  }

  /** The stored view is one of those that were built, under the revision it was given, and none of them was read at a later
      data revision. */
  ghost predicate HoldsNewest(v: Snapshot, built: seq<Snapshot>) {
    && (exists i :: 0 <= i < |built| && v == Numbered(built[i], v.head.revision))
    && forall i :: 0 <= i < |built| ==> built[i].head.dataRevision <= v.head.dataRevision
  }

  ghost predicate KeepsNewest(store: Store, key: string, built: seq<Snapshot>) {
    && (key in store.entries <==> built != [])
    && (key in store.entries ==> HoldsNewest(store.entries[key].value, built))
  }

  lemma AdoptKeepsNewest(store: Store, value: Snapshot, now: Instant, built: seq<Snapshot>)
    requires KeepsNewest(store, value.head.queryKey, built)
    ensures KeepsNewest(Adopt(store, value, now).0, value.head.queryKey, built + [value])
    ensures forall key, more :: key != value.head.queryKey && KeepsNewest(store, key, more) ==>
              KeepsNewest(Adopt(store, value, now).0, key, more)
  {
    hide Adopt, Stays, SaysMore;
    var key, more := value.head.queryKey, built + [value];
    var (t, v) := Adopt(store, value, now);
    assert more[|built|] == value && forall i :: 0 <= i < |built| ==> more[i] == built[i];
    if key in store.entries {
      AdoptDecides(store, value, now);
      var prior := store.entries[key].value;
      var i :| 0 <= i < |built| && prior == Numbered(built[i], prior.head.revision);
      assert v == Numbered(more[if SaysMore(prior, value) then |built| else i], v.head.revision);
    } else {
      AdoptFirst(store, value, now);
      assert v == Numbered(more[|built|], v.head.revision);
    }
  }

  lemma PushKeepsNewest(s: System, k: string, next: Option<Snapshot>, now: Instant, large: bool, key: string, built: seq<Snapshot>)
    requires KeepsNewest(s.store, key, built) && (next.Some? ==> next.value.head.queryKey == k)
    ensures KeepsNewest(AfterPush(s, k, next, now, large).store, key,
                        if k == key && built != [] && next.Some? then built + [next.value] else built)
  {
    hide Adopt, Difference, HoldsNewest;
    if next.Some? && k in s.store.entries {
      if k == key {
        AdoptKeepsNewest(s.store, next.value, now, built);
      } else {
        AdoptElsewhere(s.store, next.value, now, key);
      }
    }
  }

  lemma AdoptElsewhere(store: Store, value: Snapshot, now: Instant, key: string)
    requires key != value.head.queryKey
    ensures var t := Adopt(store, value, now).0;
            (key in t.entries <==> key in store.entries) && (key in store.entries ==> t.entries[key] == store.entries[key])
  {
  }

  /** In every run the store holds a view of a query exactly if one was built since it last had none, and what it holds is
      one of those built, read at the largest data revision among them. */
  lemma {:induction false} StoreKeepsNewest(epoch: string, steps: seq<Step>, key: string)
    ensures KeepsNewest(Run(epoch, steps).store, key, BuiltFor(epoch, steps, key))
  {
    hide HoldsNewest, Adopt, Publish, ApplyNumbers, AcceptsSnapshot;
    if steps != [] {
      var n := |steps| - 1;
      StoreKeepsNewest(epoch, steps[..n], key);
      var s, built := Run(epoch, steps[..n]), BuiltFor(epoch, steps[..n], key);
      match steps[n]
      case Get(v, now) =>
        if Built(s, v) {
          if v.head.queryKey == key { AdoptKeepsNewest(s.store, v, now, built); } else { AdoptElsewhere(s.store, v, now, key); }
        }
      case Push(k, next, now, large) =>
        if next.Some? ==> Built(s, next.value) && next.value.head.queryKey == k {
          PushKeepsNewest(s, k, next, now, large, key, built);
        }
      case _ =>
    }
  }

  /** So the stored view of a query shows the full query over the ledger of the largest data revision any view of it was
      built at: after a full answer or a publication, usage that either of them saw is on it. */
  lemma StoredShowsNewest(ledgers: Ledgers, epoch: string, steps: seq<Step>, key: string)
    requires Announced(ledgers) && Truthful(ledgers, epoch, steps) && BuiltFor(epoch, steps, key) != []
    ensures var s := Run(epoch, steps);
            && key in s.store.entries
            && var v := s.store.entries[key].value;
            && ShowsQuery(ledgers, v) && v.head.epoch == s.epoch
            && (forall b :: b in BuiltFor(epoch, steps, key) ==> b.head.dataRevision <= v.head.dataRevision)
  {
    hide ShowsQuery, Numbered, Next;
    StoreKeepsNewest(epoch, steps, key);
    InvAlways(epoch, steps);
    HistoryAlwaysShows(ledgers, epoch, steps);
  }

  /** A full answer brings the page up to date. Whatever the page held — another range, another run of the server, an older
      view — when a view is built for a query and the answer arrives, the page shows that query over a ledger that no view
      built for it so far, this one included, was ahead of. */
  lemma RefreshShowsNewest(ledgers: Ledgers, epoch: string, steps: seq<Step>, built: Snapshot, now: Instant)
    requires Announced(ledgers) && Truthful(ledgers, epoch, steps + [Get(built, now)])
    requires epoch != "" && |steps| < MAX_SAFE
    requires var s := Run(epoch, steps); Built(s, built) && s.expected in {"", s.epoch}
    ensures var asked := steps + [Get(built, now)];
            var s := Run(epoch, asked);
            && built.head.queryKey in s.store.entries
            && var b := Run(epoch, asked + [AnswerArrives(s.store.entries[built.head.queryKey].value)]).browser;
            && b.Some? && b.value.head.epoch == s.epoch && b.value.head.queryKey == built.head.queryKey
            && built in BuiltFor(epoch, asked, built.head.queryKey)
            && (forall v :: v in BuiltFor(epoch, asked, built.head.queryKey) ==> v.head.dataRevision <= b.value.head.dataRevision)
            && (s.epoch, b.value.head.dataRevision) in ledgers
            && ShowsByKey(RowMap(b.value.sessions), ledgers[(s.epoch, b.value.head.dataRevision)],
                          b.value.head.rangeStart, b.value.head.rangeEnd)
  {
    hide Run, Next, BuiltFor, Shows, ShowsByKey, RowMap, Built, Announced, Truthful;
    var key, asked := built.head.queryKey, steps + [Get(built, now)];
    RunsOn(epoch, steps, Get(built, now));
    StoredIsSent(Run(epoch, steps), built, now);
    GetIsBuiltFor(epoch, steps, built, now);
    GetKeepsRun(Run(epoch, steps), built, now);
    StoredShowsNewest(ledgers, epoch, asked, key);
    StoredReachesPage(epoch, asked, key);
    var v := Run(epoch, asked).store.entries[key].value;
    InvAlways(epoch, asked);
    ListedByKey(v.sessions, ledgers[(v.head.epoch, v.head.dataRevision)], v.head.rangeStart, v.head.rangeEnd);
  }

  lemma GetKeepsRun(s: System, built: Snapshot, now: Instant)
    ensures var t := Next(s, Get(built, now)); t.epoch == s.epoch && t.expected == s.expected && t.browser == s.browser
  {
  }

  lemma GetIsBuiltFor(epoch: string, steps: seq<Step>, built: Snapshot, now: Instant)
    requires Built(Run(epoch, steps), built)
    ensures BuiltFor(epoch, steps + [Get(built, now)], built.head.queryKey) == BuiltFor(epoch, steps, built.head.queryKey) + [built]
  {
    hide Run;
    assert (steps + [Get(built, now)])[..|steps|] == steps;
  }
}
