/** The server's materialised views: their revisions, their published bases and the patches between them
    (numeric_stream.go). */
module NumericViews {
  import opened Wrappers
  import opened Wire
  import opened Snapshots
  import opened Incremental
  import opened Browser

  /* ---- Differences ---- */

  /** What is left of the old rows, by key, when the first rows of the new view have been looked at. */
  function Residual(prior: map<Key, Row>, rows: seq<Row>): map<Key, Row> { prior - KeysOf(rows) }

  function Changed(prior: map<Key, Row>, rows: seq<Row>): seq<Row> {
    if rows == [] then []
    else
      var earlier, r := rows[..|rows| - 1], rows[|rows| - 1];
      var left := Residual(prior, earlier);
      Changed(prior, earlier) + if r.key in left && left[r.key] == r then [] else [r]
  }

  function Difference(before: Snapshot, after: Snapshot): Numbers {
    var prior := RowMap(before.sessions);
    Numbers(after.head, before.head.revision, before.head.rangeEnd,
            Changed(prior, after.sessions), Residual(prior, after.sessions).Keys)
  }

  method NumericDifference(before: Snapshot, after: Snapshot) returns (m: Numbers)
    ensures m == Difference(before, after)
  {
    hide Residual, Changed, RowMap;
    var left := ByKey(before.sessions);
    ghost var prior := left;
    var changed: seq<Row> := [];
    NothingLookedAt(prior);
    assert after.sessions[..0] == [];
    for i := 0 to |after.sessions|
      invariant left == Residual(prior, after.sessions[..i])
      invariant changed == Changed(prior, after.sessions[..i])
    {
      var r := after.sessions[i];
      assert after.sessions[..i + 1] == after.sessions[..i] + [r];
      LookAt(prior, after.sessions[..i], r);
      if r.key !in left || left[r.key] != r {
        changed := changed + [r];
      }
      left := left - {r.key};
    }
    assert after.sessions[..|after.sessions|] == after.sessions;
    m := Numbers(after.head, before.head.revision, before.head.rangeEnd, changed, left.Keys);
  }

  method ByKey(rows: seq<Row>) returns (m: map<Key, Row>)
    ensures m == RowMap(rows)
  {
    m := map[];
    for i := 0 to |rows|
      invariant m == RowMap(rows[..i])
    {
      assert rows[..i + 1][..i] == rows[..i];
      m := m[rows[i].key := rows[i]];
    }
    assert rows[..|rows|] == rows;
  }

  lemma NothingLookedAt(prior: map<Key, Row>)
    ensures Residual(prior, []) == prior && Changed(prior, []) == []
  {
    assert KeysOf([]) == {};
  }

  lemma LookAt(prior: map<Key, Row>, rows: seq<Row>, r: Row)
    ensures Residual(prior, rows + [r]) == Residual(prior, rows) - {r.key}
    ensures Changed(prior, rows + [r])
         == var left := Residual(prior, rows);
            if r.key in left && left[r.key] == r then Changed(prior, rows) else Changed(prior, rows) + [r]
  {
    assert (rows + [r])[..|rows|] == rows;
    assert KeysOf(rows + [r]) == KeysOf(rows) + {r.key};
    assert Changed(prior, rows) + [] == Changed(prior, rows);
  }

  lemma {:induction false} RowMapKeys(rows: seq<Row>)
    ensures RowMap(rows).Keys == KeysOf(rows)
  {
    if rows != [] {
      RowMapKeys(rows[..|rows| - 1]);
      assert rows == rows[..|rows| - 1] + [rows[|rows| - 1]];
    }
  }

  lemma DistinctPrefix(rows: seq<Row>)
    requires DistinctKeys(rows) && rows != []
    ensures DistinctKeys(rows[..|rows| - 1]) && rows[|rows| - 1].key !in KeysOf(rows[..|rows| - 1])
  {
    var rest, last := rows[..|rows| - 1], rows[|rows| - 1];
    assert rows == rest + [last];
    assert multiset(rows) == multiset(rest) + multiset{last};
    assert last in rows && multiset(rows)[last] == 1;
    forall r | r in rest ensures r in rows && multiset(rest)[r] == 1 && r.key != last.key {
      assert r in multiset(rest);
    }
  }

  function Only(prior: map<Key, Row>, keys: set<Key>): map<Key, Row> {
    map k | k in prior && k in keys :: prior[k]
  }

  lemma OnlyLookedAt(prior: map<Key, Row>, rows: seq<Row>)
    ensures prior - (Residual(prior, rows).Keys) == Only(prior, KeysOf(rows))
  {
  }

  lemma UnchangedStep(prior: map<Key, Row>, keys: set<Key>, changed: map<Key, Row>, r: Row)
    requires r.key in prior && prior[r.key] == r && r.key !in changed
    ensures Only(prior, keys + {r.key}) + changed == (Only(prior, keys) + changed)[r.key := r]
  {
  }

  lemma ChangedStep(prior: map<Key, Row>, keys: set<Key>, changed: map<Key, Row>, r: Row)
    ensures Only(prior, keys + {r.key}) + changed[r.key := r] == (Only(prior, keys) + changed)[r.key := r]
  {
  }

  lemma NothingChanged(prior: map<Key, Row>)
    ensures Only(prior, KeysOf([])) + RowMap(Changed(prior, [])) == RowMap([])
    ensures RowMap(Changed(prior, [])).Keys <= KeysOf([])
  {
  }

  lemma ChangedNext(prior: map<Key, Row>, rest: seq<Row>, last: Row)
    requires last.key !in KeysOf(rest)
    ensures KeysOf(rest + [last]) == KeysOf(rest) + {last.key}
    ensures Changed(prior, rest + [last])
         == if last.key in prior && prior[last.key] == last then Changed(prior, rest) else Changed(prior, rest) + [last]
  {
    LookAt(prior, rest, last);
  }

  /** The old rows that were looked at, overwritten with the changed ones, are the new rows. */
  lemma {:induction false} ChangedMap(prior: map<Key, Row>, rows: seq<Row>)
    requires DistinctKeys(rows)
    ensures Only(prior, KeysOf(rows)) + RowMap(Changed(prior, rows)) == RowMap(rows)
    ensures RowMap(Changed(prior, rows)).Keys <= KeysOf(rows)
  {
    if rows == [] {
      NothingChanged(prior);
    } else {
      hide *;
      var rest, last := rows[..|rows| - 1], rows[|rows| - 1];
      DistinctPrefix(rows);
      ChangedMap(prior, rest);
      assert rows == rest + [last];
      ChangedNext(prior, rest, last);
      RowMapSnoc(rest, last);
      var changed := Changed(prior, rest);
      RowMapSnoc(changed, last);
      if last.key in prior && prior[last.key] == last {
        UnchangedStep(prior, KeysOf(rest), RowMap(changed), last);
      } else {
        ChangedStep(prior, KeysOf(rest), RowMap(changed), last);
      }
    }
  }

  /** The same view: equal headline fields, and the same rows by key, in whatever order. */
  predicate Alike(a: Snapshot, b: Snapshot) {
    a.head == b.head && RowMap(a.sessions) == RowMap(b.sessions)
  }

  /** Patching. A browser that holds the base of a difference ends up with the new view; a second copy changes
      nothing; any other base of that view's stream is ignored when it is as new as the patch, and resynced
      otherwise. */
  lemma DiffThenPatch(before: Snapshot, after: Snapshot, current: Snapshot)
    requires DistinctKeys(after.sessions) && Safe(after.head.revision)
    requires before.head.epoch == after.head.epoch && before.head.queryKey == after.head.queryKey
    requires before.head.revision < after.head.revision
    ensures Alike(current, before) ==>
              var r := ApplyNumbers(Some(current), Difference(before, after));
              && r.Value? && Alike(r.value, after)
              && ApplyNumbers(Some(r.value), Difference(before, after)) == Ignored
    ensures current.head.epoch == after.head.epoch && current.head.queryKey == after.head.queryKey
            && (current.head.revision != before.head.revision || current.head.rangeEnd != before.head.rangeEnd) ==>
              ApplyNumbers(Some(current), Difference(before, after)) ==
              if after.head.revision < current.head.revision
                 || (after.head.revision == current.head.revision && Millis(after.head.rangeEnd) <= Millis(current.head.rangeEnd))
              then Ignored else Resync
  {
    if Alike(current, before) {
      var d := Difference(before, after);
      PatchMap(current.sessions, d.removed, d.changed);
      OnlyLookedAt(RowMap(before.sessions), after.sessions);
      ChangedMap(RowMap(before.sessions), after.sessions);
    }
  }

  /* ---- The view store ---- */

  datatype View = View(period: string, value: Snapshot, published: Snapshot, used: Instant)
  datatype Store = Store(entries: map<string, View>, sequence: int)

  const MAX_VIEWS := 8

  predicate SameAccounting(a: Snapshot, b: Snapshot) {
    && a.head.rangeStart == b.head.rangeStart && a.head.period == b.head.period && a.sessions == b.sessions
    && a.head.totals == b.head.totals && a.head.projects == b.head.projects && a.head.exchangeRate == b.head.exchangeRate
  }

  /** The stored view stays when the new one was read earlier, or says nothing new. */
  predicate Stays(prior: Snapshot, value: Snapshot) {
    || value.head.dataRevision < prior.head.dataRevision
    || (value.head.dataRevision == prior.head.dataRevision
        && (value.head.rangeEnd <= prior.head.rangeEnd || SameAccounting(prior, value)))
  }

  function Numbered(value: Snapshot, revision: int): Snapshot { Snapshot(value.head.(revision := revision), value.sessions) }

  lemma KeepsKey(value: Snapshot, revision: int)
    ensures Numbered(value, revision).head.queryKey == value.head.queryKey
    ensures Numbered(value, revision).head.period == value.head.period
  {
  }

  /** Adopting a built view, when there is room for it. */
  function Adopt(s: Store, value: Snapshot, now: Instant): (Store, Snapshot) {
    var key := value.head.queryKey;
    if key in s.entries && Stays(s.entries[key].value, value) then (s, s.entries[key].value)
    else
      var v := Numbered(value, s.sequence + 1);
      var view := if key in s.entries then s.entries[key].(value := v, used := now) else View(v.head.period, v, v, now);
      (Store(s.entries[key := view], s.sequence + 1), v)
  }

  datatype Message = Silence | Resynchronise | Patch(numbers: Numbers)

  /** The publisher's turn for one query: build on the stored view, adopt, and send what changed since the last
      publication. `next` is the built view, or None when the database is unavailable; `large` says whether the
      encoded patch exceeds 256 KiB. */
  function Publish(s: Store, key: string, next: Option<Snapshot>, now: Instant, large: bool): (Store, Message)
    requires next.Some? ==> next.value.head.queryKey == key
  {
    if key !in s.entries || next.None? then (s, Resynchronise)
    else
      var (t, v) := Adopt(s, next.value, now);
      var published := s.entries[key].published;
      if published.head.revision == v.head.revision then (t, Silence)
      else
        (t.(entries := t.entries[key := t.entries[key].(published := v)]),
         if large then Resynchronise else Patch(Difference(published, v)))
  }

  /** A view that replaces another has a larger revision and was read strictly later: at a later data revision, or
      at the same one with a later end of range. */
  lemma {:induction false} AdoptionClimbs(s: Store, value: Snapshot, now: Instant)
    requires value.head.queryKey in s.entries
    ensures var prior, v := s.entries[value.head.queryKey].value, Adopt(s, value, now).1;
            v == prior || (s.sequence < v.head.revision && Later(prior, v))
  {
  }

  /** A built view says more than the stored one when it was read at a later data revision, or at the same one with a later
      end of range and another start, period, list, total, project total or exchange rate. */
  predicate SaysMore(prior: Snapshot, value: Snapshot) {
    || prior.head.dataRevision < value.head.dataRevision
    || (prior.head.dataRevision == value.head.dataRevision && prior.head.rangeEnd < value.head.rangeEnd
        && (value.head.rangeStart != prior.head.rangeStart || value.head.period != prior.head.period
            || value.sessions != prior.sessions || value.head.totals != prior.head.totals
            || value.head.projects != prior.head.projects || value.head.exchangeRate != prior.head.exchangeRate))
  }

  /** Exactly a view that says more is taken: it gets the next revision, with its own rows and headline, and the published
      base stays. Otherwise nothing changes. Either way the data revision stored is the larger of the two. */
  lemma AdoptDecides(s: Store, value: Snapshot, now: Instant)
    requires value.head.queryKey in s.entries
    ensures var key := value.head.queryKey;
            var prior, (t, v) := s.entries[key], Adopt(s, value, now);
            && t == (if SaysMore(prior.value, value)
                     then Store(s.entries[key := View(prior.period, v, prior.published, now)], s.sequence + 1) else s)
            && v == (if SaysMore(prior.value, value)
                     then Snapshot(value.head.(revision := s.sequence + 1), value.sessions) else prior.value)
            && t.entries[key].value == v
            && v.head.dataRevision == Larger(prior.value.head.dataRevision, value.head.dataRevision)
  {
  }

  /** A view of a query that has none is stored as the next revision, and is its own published base. */
  lemma AdoptFirst(s: Store, value: Snapshot, now: Instant)
    requires value.head.queryKey !in s.entries
    ensures var key, (t, v) := value.head.queryKey, Adopt(s, value, now);
            && v == Snapshot(value.head.(revision := s.sequence + 1), value.sessions)
            && t == Store(s.entries[key := View(value.head.period, v, v, now)], s.sequence + 1)
  {
  }

  function Larger(a: int, b: int): int { if a < b then b else a }

  predicate Later(a: Snapshot, b: Snapshot) {
    a.head.dataRevision < b.head.dataRevision
    || (a.head.dataRevision == b.head.dataRevision && a.head.rangeEnd < b.head.rangeEnd)
  }

  /** A stored view that stays because nothing new is said still shows the full query of the later window. */
  lemma KeptViewStillShows(s: Store, value: Snapshot, now: Instant, ledger: seq<Entry>)
    requires value.head.queryKey in s.entries
    requires Shows(value.sessions, ledger, value.head.rangeStart, value.head.rangeEnd, None)
    requires var prior := s.entries[value.head.queryKey].value;
             value.head.dataRevision == prior.head.dataRevision && prior.head.rangeEnd < value.head.rangeEnd
    ensures var v := Adopt(s, value, now).1;
            && Shows(v.sessions, ledger, value.head.rangeStart, value.head.rangeEnd, None)
            && v.head.totals == value.head.totals && v.head.projects == value.head.projects
            && v.head.exchangeRate == value.head.exchangeRate && v.head.rangeStart == value.head.rangeStart
  {
  }

  class ViewStore {
    var entries: map<string, View>
    var sequence: int

    function Contents(): Store
      reads this
    {
      Store(entries, sequence)
    }

    constructor ()
      ensures Contents() == Store(map[], 0)
    {
      entries, sequence := map[], 0;
    }

    ghost predicate Valid()
      reads this
    {
      |entries| <= MAX_VIEWS && "" !in entries && forall k :: k in entries ==> entries[k].value.head.queryKey == k
    }

    /** Make room for a new key: when there are eight views, the one unused for longest goes. */
    method Evict(key: string) returns (oldest: string)
      requires Valid() && key !in entries && key != ""
      modifies this`entries
      ensures Valid() && |entries| < MAX_VIEWS
      ensures |old(entries)| < MAX_VIEWS ==> oldest == "" && entries == old(entries)
      ensures |old(entries)| == MAX_VIEWS ==>
                && oldest in old(entries) && entries == old(entries) - {oldest}
                && forall k :: k in old(entries) ==> old(entries)[oldest].used <= old(entries)[k].used
    {
      oldest := "";
      if |entries| < MAX_VIEWS {
        return;
      }
      var rest := entries.Keys;
      while rest != {}
        invariant rest <= entries.Keys
        invariant oldest == "" <==> rest == entries.Keys
        invariant oldest != "" ==> oldest in entries
        invariant forall k :: k in entries.Keys - rest ==> oldest != "" && entries[oldest].used <= entries[k].used
        decreases rest
      {
        var k :| k in rest;
        if oldest == "" || entries[k].used < entries[oldest].used {
          oldest := k;
        }
        rest := rest - {k};
      }
      assert |entries.Keys| == |entries|;
      entries := entries - {oldest};
    }

    method Put(key: string, v: Snapshot, now: Instant) returns (ghost evicted: set<string>)
      requires Valid() && key !in entries && key != "" && v.head.queryKey == key
      modifies this`entries
      ensures Valid() && evicted <= old(entries).Keys && |evicted| <= 1
      ensures evicted != {} ==> |old(entries)| == MAX_VIEWS
      ensures entries == (old(entries) - evicted)[key := View(v.head.period, v, v, now)]
    {
      var oldest := Evict(key);
      evicted := if oldest == "" then {} else {oldest};
      assert old(entries) - {} == old(entries);
      entries := entries[key := View(v.head.period, v, v, now)];
    }

    static method KeepsStored(prior: Snapshot, value: Snapshot) returns (stays: bool)
      ensures stays == Stays(prior, value)
    {
      if value.head.dataRevision < prior.head.dataRevision
         || (value.head.dataRevision == prior.head.dataRevision && value.head.rangeEnd <= prior.head.rangeEnd) {
        return true;
      }
      return value.head.dataRevision == prior.head.dataRevision && SameAccounting(prior, value);
    }

    method AdoptNumeric(value: Snapshot, now: Instant) returns (v: Snapshot, ghost evicted: set<string>)
      requires Valid() && value.head.queryKey != ""
      modifies this
      ensures Valid()
      ensures evicted <= old(entries).Keys && |evicted| <= 1 && value.head.queryKey !in evicted
      ensures evicted != {} ==> value.head.queryKey !in old(entries) && |old(entries)| == MAX_VIEWS
      ensures (Contents(), v) == Adopt(old(Contents()).(entries := old(entries) - evicted), value, now)
    {
      hide Stays, Numbered;
      KeepsKey(value, sequence + 1);
      var key := value.head.queryKey;
      evicted := {};
      assert entries - {} == entries;
      if key in entries {
        var stays := KeepsStored(entries[key].value, value);
        if stays {
          return entries[key].value, {};
        }
      }
      sequence := sequence + 1;
      v := Numbered(value, sequence);
      if key !in entries {
        evicted := Put(key, v, now);
      } else {
        entries := entries[key := entries[key].(value := v, used := now)];
      }
    }

    method NumericMessage(key: string, next: Option<Snapshot>, now: Instant, large: bool) returns (m: Message)
      requires Valid() && key != "" && (next.Some? ==> next.value.head.queryKey == key)
      modifies this
      ensures Valid()
      ensures (Contents(), m) == Publish(old(Contents()), key, next, now, large)
    {
      if key !in entries || next.None? {
        return Resynchronise;
      }
      assert entries - {} == entries;
      var v, evicted := AdoptNumeric(next.value, now);
      var published := entries[key].published;
      if published.head.revision == v.head.revision {
        return Silence;
      }
      var numbers := NumericDifference(published, v);
      entries := entries[key := entries[key].(published := v)];
      m := if large then Resynchronise else Patch(numbers);
    }

    /** Whether any subscribed view's window has moved over usage, or its calendar key has rolled over — in which
        case the view is dropped. `now` gives each stored query's range at this moment; None when the query does
        not resolve. */
    method WindowDue(active: set<string>, now: map<string, Option<Range>>, ledger: seq<Entry>) returns (due: bool, ghost culprit: string)
      requires Valid() && entries.Keys <= now.Keys
      modifies this`entries
      ensures Valid()
      ensures !due ==> entries == old(entries) && forall k :: k in entries ==> !ViewDue(entries[k], k, active, now[k], ledger)
      ensures due ==> culprit in old(entries) && ViewDue(old(entries)[culprit], culprit, active, now[culprit], ledger)
      ensures due ==> entries == if now[culprit].value.queryKey != culprit then old(entries) - {culprit} else old(entries)
    {
      var rest := entries.Keys;
      culprit := "";
      while rest != {}
        invariant rest <= entries.Keys && entries == old(entries)
        invariant forall k :: k in entries.Keys - rest ==> !ViewDue(entries[k], k, active, now[k], ledger)
        decreases rest
      {
        var k :| k in rest;
        rest := rest - {k};
        if now[k].None? || now[k].value.queryKey !in active {
          continue;
        }
        var r, h := now[k].value, entries[k].value.head;
        if k != r.queryKey {
          entries := entries - {k};
          return true, k;
        }
        if r.period != "24h" && h.rangeStart != r.start {
          return true, k;
        }
        if h.rangeStart < r.start && exists i :: 0 <= i < |ledger| && Incremental.Within(ledger[i], h.rangeStart, r.start) {
          return true, k;
        }
        if h.rangeEnd < r.end && exists i :: 0 <= i < |ledger| && Incremental.Within(ledger[i], h.rangeEnd, r.end) {
          return true, k;
        }
      }
      return false, "";
    }
  }

  /** A view is due when it is watched and its key or its window has moved on. */
  predicate ViewDue(view: View, key: string, active: set<string>, r: Option<Range>, ledger: seq<Entry>) {
    && r.Some? && r.value.queryKey in active
    && (key != r.value.queryKey
        || EdgeDue(ledger, r.value.period, view.value.head.rangeStart, view.value.head.rangeEnd, r.value.start, r.value.end))
  }

  /** While a watched view's window moves forward onto part of itself, the view is due exactly if its calendar key has rolled
      over, or a rolling window has gained or lost a row, or another window starts elsewhere or has gained one. */
  lemma ViewDueExactly(view: View, key: string, active: set<string>, r: Range, ledger: seq<Entry>)
    requires r.queryKey in active
    requires view.value.head.rangeStart <= r.start <= view.value.head.rangeEnd <= r.end
    ensures var h := view.value.head;
            ViewDue(view, key, active, Some(r), ledger) <==>
              || key != r.queryKey
              || (r.period == "24h" && exists i :: 0 <= i < |ledger|
                                                && !(h.rangeStart <= ledger[i].at < h.rangeEnd <==> r.start <= ledger[i].at < r.end))
              || (r.period != "24h" && h.rangeStart != r.start)
              || (r.period != "24h" && exists i :: 0 <= i < |ledger| && h.rangeEnd <= ledger[i].at < r.end)
  {
    DueExactly(ledger, r.period, view.value.head.rangeStart, view.value.head.rangeEnd, r.start, r.end);
  }

  /** A watched view that is not due, over a ledger that has not grown since, still shows the full query of its
      current window — as long as no edge has moved back. */
  lemma NotDueShowsFullQuery(view: View, key: string, active: set<string>, r: Range, ledger: seq<Entry>)
    requires Table(ledger) && r.queryKey in active && !ViewDue(view, key, active, Some(r), ledger)
    requires Shows(view.value.sessions, ledger, view.value.head.rangeStart, view.value.head.rangeEnd, None)
    requires view.value.head.rangeStart <= r.start && view.value.head.rangeEnd <= r.end
    ensures Shows(view.value.sessions, ledger, r.start, r.end, None)
  {
    NotDueForward(ledger, r.period, view.value.head.rangeStart, view.value.head.rangeEnd, r.start, r.end);
  }
}
