/** Rebuilding a view from the rows a change can have touched (numeric_incremental.go), and noticing that a moving
    window has passed over usage (numericWindowDue). */
module Incremental {
  import opened Wrappers
  import opened Wire
  import opened Snapshots
  import Clock

  /* ---- The full query ---- */

  // One row of the ledger as the range queries see it.
  datatype Entry = Entry(id: int, key: Key, at: Instant, counts: Tokens)

  /** Ids are handed out in increasing order. */
  ghost predicate Table(ledger: seq<Entry>) {
    forall i, j :: 0 <= i < j < |ledger| ==> ledger[i].id < ledger[j].id
  }

  predicate Within(e: Entry, start: Instant, end: Instant) { start <= e.at < end }

  /** A conversation's tokens in the half-open window; none when it has no ledger row there. */
  function KeyTotal(ledger: seq<Entry>, start: Instant, end: Instant, k: Key): Option<Tokens> {
    if ledger == [] then None
    else
      var e, before := ledger[|ledger| - 1], KeyTotal(ledger[..|ledger| - 1], start, end, k);
      if e.key == k && Within(e, start, end)
      then Some((if before.Some? then before.value else ZERO).Plus(e.counts))
      else before
  }

  /** `list` is what the grouped query returns for the window, restricted to the keys in scope. */
  ghost predicate Shows(list: seq<Row>, ledger: seq<Entry>, start: Instant, end: Instant, scope: Option<set<Key>>) {
    && DistinctKeys(list)
    && (forall r :: r in list ==>
          (scope.Some? ==> r.key in scope.value) && KeyTotal(ledger, start, end, r.key) == Some(r.counts))
    && (forall k :: (scope.Some? ==> k in scope.value) && KeyTotal(ledger, start, end, k).Some? ==> Listed(list, k))
  }

  ghost predicate Listed(list: seq<Row>, k: Key) { exists r :: r in list && r.key == k }

  /* ---- Which conversations a change can have touched ---- */

  datatype Range = Range(period: string, queryKey: string, start: Instant, end: Instant)
  datatype Mark = Mark(epoch: string, fullRevision: int)

  predicate Touches(e: Entry, oldId: int, oldStart: Instant, oldEnd: Instant, start: Instant, end: Instant) {
    oldId < e.id || Within(e, oldStart, start) || Within(e, oldEnd, end)
  }

  function Touched(ledger: seq<Entry>, oldId: int, oldStart: Instant, oldEnd: Instant, start: Instant, end: Instant): set<Key> {
    set i | 0 <= i < |ledger| && Touches(ledger[i], oldId, oldStart, oldEnd, start, end) :: ledger[i].key
  }

  /** What a DISTINCT query with LIMIT 257 may return: all keys, or some 257 of them. */
  ghost predicate ListsSome(listed: seq<Key>, keys: set<Key>) {
    && (forall i, j :: 0 <= i < j < |listed| ==> listed[i] != listed[j])
    && (forall k :: k in listed ==> k in keys)
    && |listed| <= 257
    && (|listed| < 257 ==> forall k :: k in keys ==> k in listed)
  }

  function KeysOf(list: seq<Row>): set<Key> { set r | r in list :: r.key }

  /** The view may be rebuilt from `prior`: same process, same metadata, same query, and no edge moved back. */
  predicate Continues(mark: Mark, prior: Snapshot, r: Range) {
    && mark.epoch == prior.head.epoch && mark.fullRevision == prior.head.fullRevision && r.queryKey == prior.head.queryKey
    && prior.head.rangeStart <= r.start && prior.head.rangeEnd <= r.end
    && (r.period != "24h" ==> r.start == prior.head.rangeStart)
  }

  function TouchedBy(ledger: seq<Entry>, prior: Snapshot, r: Range): set<Key> {
    Touched(ledger, prior.head.ledgerRevision, prior.head.rangeStart, prior.head.rangeEnd, r.start, r.end)
  }

  /** Decides the scope: exactly the touched conversations, unless a full query is needed — because the view does
      not continue the prior one, a touched conversation has no row yet, or more than 256 are touched. */
  method PrepareIncremental(mark: Mark, prior: Snapshot, r: Range, listed: seq<Key>, ghost ledger: seq<Entry>)
    returns (scope: Option<set<Key>>)
    requires ListsSome(listed, TouchedBy(ledger, prior, r))
    ensures scope == var keys := TouchedBy(ledger, prior, r);
                     if Continues(mark, prior, r) && |keys| <= 256 && keys <= KeysOf(prior.sessions) then Some(keys) else None
  {
    ghost var all := TouchedBy(ledger, prior, r);
    if mark.epoch != prior.head.epoch || mark.fullRevision != prior.head.fullRevision || r.queryKey != prior.head.queryKey {
      return None;
    }
    if r.start < prior.head.rangeStart || r.end < prior.head.rangeEnd || (r.period != "24h" && r.start != prior.head.rangeStart) {
      return None;
    }
    var known: set<Key> := {};
    for i := 0 to |prior.sessions|
      invariant known == KeysOf(prior.sessions[..i])
    {
      assert prior.sessions[..i + 1] == prior.sessions[..i] + [prior.sessions[i]];
      known := known + {prior.sessions[i].key};
    }
    assert prior.sessions[..|prior.sessions|] == prior.sessions;
    var keys: set<Key> := {};
    for i := 0 to |listed|
      invariant keys == (set k | k in listed[..i]) && |keys| == i
      invariant keys <= known && keys <= all
    {
      if listed[i] !in known {
        return None;
      }
      assert listed[i] !in keys;
      assert listed[..i + 1] == listed[..i] + [listed[i]];
      keys := keys + {listed[i]};
    }
    assert listed[..|listed|] == listed;
    if |keys| > 256 {
      SubsetSize(keys, all);
      return None;
    }
    assert keys == all;
    return Some(keys);
  }

  lemma {:induction false} SubsetSize<T>(a: set<T>, b: set<T>)
    requires a <= b
    ensures |a| <= |b|
    decreases a
  {
    if a != {} {
      var x :| x in a;
      SubsetSize(a - {x}, b - {x});
    }
  }

  /* ---- Merging ---- */

  function Kept(list: seq<Row>, scope: set<Key>): seq<Row> {
    if list == [] then []
    else Kept(list[..|list| - 1], scope) + if list[|list| - 1].key in scope then [] else [list[|list| - 1]]
  }

  /** Newest last event first; equal ones keep their order. */
  function InsertNewest(s: seq<Row>, x: Row): seq<Row> {
    if s == [] || !Clock.Less(s[|s| - 1].lastEventAt, x.lastEventAt) then s + [x]
    else InsertNewest(s[..|s| - 1], x) + [s[|s| - 1]]
  }

  function NewestFirst(s: seq<Row>): seq<Row> {
    if s == [] then [] else InsertNewest(NewestFirst(s[..|s| - 1]), s[|s| - 1])
  }

  function Merged(scope: Option<set<Key>>, priorRows: seq<Row>, changed: seq<Row>): seq<Row> {
    if scope.None? then changed else NewestFirst(Kept(priorRows, scope.value) + changed)
  }

  method MergeRows(scope: Option<set<Key>>, priorRows: seq<Row>, changed: seq<Row>) returns (rows: seq<Row>)
    ensures rows == Merged(scope, priorRows, changed)
  {
    hide NewestFirst;
    if scope.None? {
      return changed;
    }
    rows := [];
    for i := 0 to |priorRows|
      invariant rows == Kept(priorRows[..i], scope.value)
    {
      assert priorRows[..i + 1][..i] == priorRows[..i];
      if priorRows[i].key !in scope.value {
        rows := rows + [priorRows[i]];
      }
    }
    assert priorRows[..|priorRows|] == priorRows;
    rows := StableSort(rows + changed);
  }

  method StableSort(rows: seq<Row>) returns (sorted: seq<Row>)
    ensures sorted == NewestFirst(rows)
  {
    hide InsertNewest;
    sorted := [];
    for i := 0 to |rows|
      invariant sorted == NewestFirst(rows[..i])
    {
      assert rows[..i + 1][..i] == rows[..i];
      sorted := InsertNewest(sorted, rows[i]);
    }
    assert rows[..|rows|] == rows;
  }

  ghost predicate Descending(s: seq<Row>) {
    forall i, j :: 0 <= i < j < |s| ==> !Clock.Less(s[i].lastEventAt, s[j].lastEventAt)
  }

  lemma {:induction false} InsertNewestSorts(s: seq<Row>, x: Row)
    requires Descending(s)
    ensures multiset(InsertNewest(s, x)) == multiset(s) + multiset{x}
    ensures Descending(InsertNewest(s, x))
  {
    hide Clock.Less;
    if s == [] || !Clock.Less(s[|s| - 1].lastEventAt, x.lastEventAt) {
      forall i | 0 <= i < |s| - 1 ensures !Clock.Less(s[i].lastEventAt, x.lastEventAt) {
        NotLess(s[i].lastEventAt, s[|s| - 1].lastEventAt, x.lastEventAt);
      }
    } else {
      var rest, last := s[..|s| - 1], s[|s| - 1];
      InsertNewestSorts(rest, x);
      assert s == rest + [last];
      Clock.LessTotal(last.lastEventAt, x.lastEventAt);
      LastIsOldest(InsertNewest(rest, x), rest, x, last);
    }
  }

  lemma LastIsOldest(t: seq<Row>, rest: seq<Row>, x: Row, last: Row)
    requires multiset(t) == multiset(rest) + multiset{x} && Descending(t)
    requires !Clock.Less(x.lastEventAt, last.lastEventAt)
    requires forall i :: 0 <= i < |rest| ==> !Clock.Less(rest[i].lastEventAt, last.lastEventAt)
    ensures Descending(t + [last])
  {
    forall i | 0 <= i < |t| ensures !Clock.Less(t[i].lastEventAt, last.lastEventAt) {
      assert t[i] in multiset(t);
      assert t[i] == x || t[i] in rest;
    }
  }

  lemma NotLess(a: string, b: string, c: string)
    requires !Clock.Less(a, b) && !Clock.Less(b, c)
    ensures !Clock.Less(a, c)
  {
    Clock.LessTotal(a, b);
    Clock.LessTotal(b, c);
    if a != b && Clock.Less(a, c) {
      Clock.LessTransitive(b, a, c);
    }
  }

  lemma {:induction false} NewestFirstSorts(s: seq<Row>)
    ensures multiset(NewestFirst(s)) == multiset(s)
    ensures Descending(NewestFirst(s))
  {
    hide Clock.Less, InsertNewest;
    if s != [] {
      NewestFirstSorts(s[..|s| - 1]);
      InsertNewestSorts(NewestFirst(s[..|s| - 1]), s[|s| - 1]);
      assert s == s[..|s| - 1] + [s[|s| - 1]];
    }
  }

  function OfTime(s: seq<Row>, at: string): seq<Row> {
    if s == [] then []
    else OfTime(s[..|s| - 1], at) + if s[|s| - 1].lastEventAt == at then [s[|s| - 1]] else []
  }

  lemma {:induction false} InsertAmongEquals(s: seq<Row>, x: Row, at: string)
    ensures OfTime(InsertNewest(s, x), at) == OfTime(s, at) + if x.lastEventAt == at then [x] else []
  {
    hide Clock.Less;
    if s != [] && Clock.Less(s[|s| - 1].lastEventAt, x.lastEventAt) {
      var rest, last := s[..|s| - 1], s[|s| - 1];
      InsertAmongEquals(rest, x, at);
      Clock.LessTotal(last.lastEventAt, x.lastEventAt);
      var t := InsertNewest(rest, x);
      assert (t + [last])[..|t|] == t;
    } else {
      assert (s + [x])[..|s|] == s;
    }
  }

  /** The sort is stable: rows of one time keep the order they came in. */
  lemma {:induction false} EqualsKeepOrder(s: seq<Row>, at: string)
    ensures OfTime(NewestFirst(s), at) == OfTime(s, at)
  {
    hide InsertNewest;
    if s != [] {
      EqualsKeepOrder(s[..|s| - 1], at);
      InsertAmongEquals(NewestFirst(s[..|s| - 1]), s[|s| - 1], at);
    }
  }

  lemma {:induction false} KeptRows(list: seq<Row>, scope: set<Key>)
    ensures forall r :: r in Kept(list, scope) ==> r in list && r.key !in scope
    ensures forall r :: r in list && r.key !in scope ==> r in Kept(list, scope)
    ensures forall r :: multiset(Kept(list, scope))[r] <= multiset(list)[r]
  {
    if list != [] {
      KeptRows(list[..|list| - 1], scope);
      assert list == list[..|list| - 1] + [list[|list| - 1]];
    }
  }

  /* ---- The merge is the full query ---- */

  /** The part of the ledger the prior view had seen. */
  function Seen(ledger: seq<Entry>, id: int): seq<Entry> {
    if ledger == [] || ledger[|ledger| - 1].id <= id then ledger else Seen(ledger[..|ledger| - 1], id)
  }

  /** A conversation that neither new rows nor moving edges touch has the same tokens in both windows. */
  lemma {:induction false} UntouchedTotal(ledger: seq<Entry>, id: int, oldStart: Instant, oldEnd: Instant,
                                          start: Instant, end: Instant, k: Key)
    requires Table(ledger) && oldStart <= start && oldEnd <= end
    requires forall i :: 0 <= i < |ledger| && ledger[i].key == k ==> !Touches(ledger[i], id, oldStart, oldEnd, start, end)
    ensures KeyTotal(Seen(ledger, id), oldStart, oldEnd, k) == KeyTotal(ledger, start, end, k)
  {
    if ledger != [] {
      var rest := ledger[..|ledger| - 1];
      UntouchedTotal(rest, id, oldStart, oldEnd, start, end, k);
      if ledger[|ledger| - 1].id <= id {
        assert Seen(rest, id) == rest;
      }
    }
  }

  lemma UntouchedKey(ledger: seq<Entry>, prior: Snapshot, r: Range, k: Key)
    requires Table(ledger) && k !in TouchedBy(ledger, prior, r)
    requires prior.head.rangeStart <= r.start && prior.head.rangeEnd <= r.end
    ensures KeyTotal(Seen(ledger, prior.head.ledgerRevision), prior.head.rangeStart, prior.head.rangeEnd, k)
         == KeyTotal(ledger, r.start, r.end, k)
  {
    var h := prior.head;
    forall i | 0 <= i < |ledger| && ledger[i].key == k
      ensures !Touches(ledger[i], h.ledgerRevision, h.rangeStart, h.rangeEnd, r.start, r.end)
    {
      assert Touches(ledger[i], h.ledgerRevision, h.rangeStart, h.rangeEnd, r.start, r.end) ==> k in TouchedBy(ledger, prior, r);
    }
    UntouchedTotal(ledger, h.ledgerRevision, h.rangeStart, h.rangeEnd, r.start, r.end, k);
  }

  lemma {:induction false} MergedKeys(kept: seq<Row>, changed: seq<Row>, scope: set<Key>, priorRows: seq<Row>)
    requires DistinctKeys(priorRows) && DistinctKeys(changed) && kept == Kept(priorRows, scope)
    requires forall r :: r in changed ==> r.key in scope
    ensures DistinctKeys(kept + changed)
  {
    KeptRows(priorRows, scope);
    forall r | r in kept + changed ensures multiset(kept + changed)[r] == 1 {
      assert multiset(kept + changed)[r] == multiset(kept)[r] + multiset(changed)[r];
      assert r in kept ==> multiset(priorRows)[r] == 1 && r !in changed;
    }
  }

  /** Whenever the rebuild goes ahead, keeping the untouched rows and re-reading the touched ones shows exactly
      what the full query over the new window and the new ledger would: expired rows go, totals that fall fall. */
  lemma RebuildIsFullQuery(ledger: seq<Entry>, mark: Mark, prior: Snapshot, r: Range, changed: seq<Row>)
    requires Table(ledger) && Continues(mark, prior, r)
    requires Shows(prior.sessions, Seen(ledger, prior.head.ledgerRevision), prior.head.rangeStart, prior.head.rangeEnd, None)
    requires Shows(changed, ledger, r.start, r.end, Some(TouchedBy(ledger, prior, r)))
    ensures var rows := Merged(Some(TouchedBy(ledger, prior, r)), prior.sessions, changed);
            Shows(rows, ledger, r.start, r.end, None) && Descending(rows)
  {
    var scope := TouchedBy(ledger, prior, r);
    var kept := Kept(prior.sessions, scope);
    var joined := kept + changed;
    var rows := NewestFirst(joined);
    KeptRows(prior.sessions, scope);
    NewestFirstSorts(joined);
    MergedKeys(kept, changed, scope, prior.sessions);
    forall row | row in rows ensures row in joined {
      assert row in multiset(rows);
    }
    forall row | row in joined ensures row in rows {
      assert row in multiset(joined);
    }
    forall row | row in rows ensures KeyTotal(ledger, r.start, r.end, row.key) == Some(row.counts) {
      if row in kept {
        UntouchedKey(ledger, prior, r, row.key);
      }
    }
    forall k | KeyTotal(ledger, r.start, r.end, k).Some? ensures Listed(rows, k) {
      if k in scope {
        assert Listed(changed, k);
        var row :| row in changed && row.key == k;
        assert row in rows;
      } else {
        UntouchedKey(ledger, prior, r, k);
        assert Listed(prior.sessions, k);
        var row :| row in prior.sessions && row.key == k;
        assert row in kept;
        assert row in rows;
      }
    }
  }

  /* ---- One build after another ---- */

  // One rebuild: what the reader is pinned to, the range asked for, and what the scoped query returns.
  datatype Build = Build(ledger: seq<Entry>, mark: Mark, range: Range, found: seq<Row>)

  /** The conversations that are read again; None for a full query. */
  function ScopeFor(prior: Snapshot, b: Build): Option<set<Key>> {
    var keys := TouchedBy(b.ledger, prior, b.range);
    if Continues(b.mark, prior, b.range) && |keys| <= 256 && keys <= KeysOf(prior.sessions) then Some(keys) else None
  }

  /** Whether only some conversations are read again: if the view is of this process, with the same metadata, of the same query,
      and neither edge moved back — nor the start at all, unless the window rolls — and the touched ones are at most 256,
      each with a row already. Touched is who has a row newer than the view, or one that a moving edge has passed. */
  lemma ScopeDecided(prior: Snapshot, b: Build)
    ensures var h, r := prior.head, b.range;
            var touched := set i | 0 <= i < |b.ledger|
                                   && (h.ledgerRevision < b.ledger[i].id || h.rangeStart <= b.ledger[i].at < r.start || h.rangeEnd <= b.ledger[i].at < r.end)
                           :: b.ledger[i].key;
            ScopeFor(prior, b) ==
              if && (h.epoch, h.fullRevision, h.queryKey) == (b.mark.epoch, b.mark.fullRevision, r.queryKey)
                 && h.rangeEnd <= r.end && (if r.period == "24h" then h.rangeStart <= r.start else h.rangeStart == r.start)
                 && |touched| <= 256 && forall k :: k in touched ==> exists row :: row in prior.sessions && row.key == k
              then Some(touched) else None
  {
    var h, r := prior.head, b.range;
    assert TouchedBy(b.ledger, prior, r) == set i | 0 <= i < |b.ledger|
             && (h.ledgerRevision < b.ledger[i].id || h.rangeStart <= b.ledger[i].at < r.start || h.rangeEnd <= b.ledger[i].at < r.end)
             :: b.ledger[i].key;
  }

  function MaxId(ledger: seq<Entry>): int { if ledger == [] then 0 else ledger[|ledger| - 1].id }

  lemma {:induction false} SeenPrefix(before: seq<Entry>, ledger: seq<Entry>)
    requires Table(ledger) && before <= ledger && forall i :: 0 <= i < |ledger| ==> 0 < ledger[i].id
    ensures Seen(ledger, MaxId(before)) == before
  {
    if |before| < |ledger| {
      SeenPrefix(before, ledger[..|ledger| - 1]);
    } else {
      assert before == ledger;
    }
  }

  /** A build on a view that shows the full query of an earlier ledger shows the full query of its own, whether it
      re-reads the touched conversations or everything. */
  lemma {:induction false} BuildShowsFullQuery(prior: Snapshot, before: seq<Entry>, b: Build)
    requires Table(b.ledger) && before <= b.ledger && forall i :: 0 <= i < |b.ledger| ==> 0 < b.ledger[i].id
    requires prior.head.ledgerRevision == MaxId(before)
    requires Shows(prior.sessions, before, prior.head.rangeStart, prior.head.rangeEnd, None)
    requires Shows(b.found, b.ledger, b.range.start, b.range.end, ScopeFor(prior, b))
    ensures Shows(Merged(ScopeFor(prior, b), prior.sessions, b.found), b.ledger, b.range.start, b.range.end, None)
  {
    hide Shows, TouchedBy, KeysOf, Seen, Continues, MaxId;
    if ScopeFor(prior, b).Some? {
      SeenPrefix(before, b.ledger);
      RebuildIsFullQuery(b.ledger, b.mark, prior, b.range, b.found);
    }
  }

  /* ---- When a window is due ---- */

  /** The check of the moving edges against the current ledger. */
  predicate EdgeDue(ledger: seq<Entry>, period: string, oldStart: Instant, oldEnd: Instant, start: Instant, end: Instant) {
    || (period != "24h" && oldStart != start)
    || (oldStart < start && exists i :: 0 <= i < |ledger| && Within(ledger[i], oldStart, start))
    || (oldEnd < end && exists i :: 0 <= i < |ledger| && Within(ledger[i], oldEnd, end))
  }

  /** Not being due is right when the rows shown still are the full query's. */
  ghost predicate StillShown(ledger: seq<Entry>, oldStart: Instant, oldEnd: Instant, start: Instant, end: Instant) {
    forall k :: KeyTotal(ledger, oldStart, oldEnd, k) == KeyTotal(ledger, start, end, k)
  }

  lemma NotDueForward(ledger: seq<Entry>, period: string, oldStart: Instant, oldEnd: Instant, start: Instant, end: Instant)
    requires Table(ledger) && oldStart <= start && oldEnd <= end
    requires !EdgeDue(ledger, period, oldStart, oldEnd, start, end)
    ensures StillShown(ledger, oldStart, oldEnd, start, end)
  {
    var id := if ledger == [] then 0 else ledger[|ledger| - 1].id;
    assert Seen(ledger, id) == ledger;
    forall k ensures KeyTotal(ledger, oldStart, oldEnd, k) == KeyTotal(ledger, start, end, k) {
      UntouchedTotal(ledger, id, oldStart, oldEnd, start, end, k);
    }
  }

  /** While a rolling window moves forward onto part of itself, it is due exactly if some row of the ledger is in one of the two
      windows and not in the other; any other window is due if it starts elsewhere or its end has passed a row. */
  lemma DueExactly(ledger: seq<Entry>, period: string, oldStart: Instant, oldEnd: Instant, start: Instant, end: Instant)
    requires oldStart <= start <= oldEnd <= end
    ensures period == "24h" ==>
              (EdgeDue(ledger, period, oldStart, oldEnd, start, end) <==>
                 exists i :: 0 <= i < |ledger| && !(oldStart <= ledger[i].at < oldEnd <==> start <= ledger[i].at < end))
    ensures period != "24h" ==>
              (EdgeDue(ledger, period, oldStart, oldEnd, start, end) <==>
                 oldStart != start || exists i :: 0 <= i < |ledger| && oldEnd <= ledger[i].at < end)
  {
    forall i | 0 <= i < |ledger|
      ensures !(oldStart <= ledger[i].at < oldEnd <==> start <= ledger[i].at < end)
         <==> Within(ledger[i], oldStart, start) || Within(ledger[i], oldEnd, end)
    {
    }
  }

  /** One row as the server writes it for a first reading of a hundred tokens. */
  function OneRow(at: Instant): Entry { Entry(1, ("host", "conversation"), at, Tokens(80, 0, 0, 20, 0, 100)) }

  lemma OneEntry(at: Instant, start: Instant, end: Instant)
    ensures KeyTotal([OneRow(at)], start, end, OneRow(at).key).Some? <==> start <= at < end
  {
    assert [OneRow(at)][..0] == [];
  }

  /** For two windows that are not empty, "not due" can be trusted for every ledger exactly when neither edge moved
      back; the check itself does not look at that, so a clock that is set back goes unnoticed. */
  lemma NotDueIsRight(period: string, oldStart: Instant, oldEnd: Instant, start: Instant, end: Instant)
    requires oldStart < oldEnd && start < end && (period != "24h" ==> oldStart == start)
    ensures (forall ledger | Table(ledger) && !EdgeDue(ledger, period, oldStart, oldEnd, start, end) ::
               StillShown(ledger, oldStart, oldEnd, start, end))
       <==> oldStart <= start && oldEnd <= end
  {
    if oldStart <= start && oldEnd <= end {
      forall ledger | Table(ledger) && !EdgeDue(ledger, period, oldStart, oldEnd, start, end)
        ensures StillShown(ledger, oldStart, oldEnd, start, end)
      {
        NotDueForward(ledger, period, oldStart, oldEnd, start, end);
      }
    } else {
      var at := if start < oldStart then start else oldEnd - 1;
      var ledger := [OneRow(at)];
      OneEntry(at, oldStart, oldEnd);
      OneEntry(at, start, end);
      assert Table(ledger) && !EdgeDue(ledger, period, oldStart, oldEnd, start, end);
      assert !StillShown(ledger, oldStart, oldEnd, start, end);
    }
  }
}
