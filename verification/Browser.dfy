/** The receiving end of the numeric protocol (web/realtime.js), and that a patch carries one view to the next. */
module Browser {
  import opened Wrappers
  import opened Wire
  import opened Snapshots

  const MAX_SAFE := 9_007_199_254_740_991

  predicate Safe(n: int) { -MAX_SAFE <= n <= MAX_SAFE }

  /** Dates are compared to the millisecond. */
  function Millis(at: Instant): (ms: int)
    ensures ms * 1_000_000 <= at < (ms + 1) * 1_000_000
  {
    at / 1_000_000
  }

  // Changed rows carry absolute values; `removed` lists the keys that are gone, in no particular order.
  datatype Numbers = Numbers(head: Head, baseRevision: int, baseRangeEnd: Instant, changed: seq<Row>, removed: set<Key>)

  /** Whether a full snapshot, or a patched one, may replace the state; "" expects no epoch in particular. */
  predicate AcceptsSnapshot(current: Option<Snapshot>, next: Snapshot, expectedEpoch: string) {
    && next.head.epoch != "" && Safe(next.head.revision) && next.head.queryKey != ""
    && (expectedEpoch == "" || expectedEpoch == next.head.epoch)
    && (current.Some? && current.value.head.epoch == next.head.epoch && current.value.head.queryKey == next.head.queryKey ==>
          && current.value.head.revision <= next.head.revision
          && (next.head.revision == current.value.head.revision ==>
                Millis(current.value.head.rangeEnd) <= Millis(next.head.rangeEnd)))
  }

  /** The state and the snapshot are of one query of one run of the server. */
  predicate SameStream(a: Option<Snapshot>, b: Snapshot) {
    a.Some? && a.value.head.epoch == b.head.epoch && a.value.head.queryKey == b.head.queryKey
  }

  /** The snapshot has an epoch and a query, a revision a double holds exactly, and is of the run that is expected. */
  predicate Presentable(next: Snapshot, expectedEpoch: string) {
    && next.head.epoch != "" && next.head.queryKey != "" && Safe(next.head.revision)
    && expectedEpoch in {"", next.head.epoch}
  }

  /** What may be shown: of the presentable snapshots, every one of another stream than the state's, and in its own stream
      exactly those that do not step back in (revision, end of range). */
  lemma AcceptedExactly(current: Option<Snapshot>, next: Snapshot, expectedEpoch: string)
    ensures AcceptsSnapshot(current, next, expectedEpoch) <==>
              && Presentable(next, expectedEpoch)
              && (|| !SameStream(current, next)
                  || current.value.head.revision < next.head.revision
                  || (current.value.head.revision == next.head.revision
                      && Millis(current.value.head.rangeEnd) <= Millis(next.head.rangeEnd)))
  {
  }

  /* ---- An insertion-ordered map, as a list of rows ---- */

  predicate HasKey(rows: seq<Row>, key: Key) { exists i :: 0 <= i < |rows| && rows[i].key == key }

  /** A key keeps its place when its row is replaced; a new one goes to the end. */
  function Upsert(rows: seq<Row>, row: Row): seq<Row> {
    if !HasKey(rows, row.key) then rows + [row]
    else if rows[|rows| - 1].key == row.key then rows[..|rows| - 1] + [row]
    else Upsert(rows[..|rows| - 1], row) + [rows[|rows| - 1]]
  }

  function UpsertAll(rows: seq<Row>, more: seq<Row>): seq<Row> {
    if more == [] then rows else Upsert(UpsertAll(rows, more[..|more| - 1]), more[|more| - 1])
  }

  function Drop(rows: seq<Row>, keys: set<Key>): seq<Row> {
    if rows == [] then []
    else Drop(rows[..|rows| - 1], keys) + if rows[|rows| - 1].key in keys then [] else [rows[|rows| - 1]]
  }

  datatype Outcome = Value(value: Snapshot) | Ignored | Resync

  function ApplyNumbers(current: Option<Snapshot>, m: Numbers): Outcome {
    if current.None? || m.head.epoch != current.value.head.epoch || m.head.queryKey != current.value.head.queryKey then Resync
    else
      var c := current.value.head;
      if !Safe(m.head.revision) then Resync
      else if m.head.revision < c.revision || (m.head.revision == c.revision && Millis(m.head.rangeEnd) <= Millis(c.rangeEnd)) then Ignored
      else if m.baseRevision != c.revision || m.baseRangeEnd != c.rangeEnd then Resync
      else Value(Snapshot(m.head, UpsertAll(Drop(UpsertAll([], current.value.sessions), m.removed), m.changed)))
  }

  /** What a patch of a safe revision does: in another stream it asks for a full answer; in its own it is ignored if it is not
      strictly ahead in (revision, end of range), applied if its base is what is held, and otherwise asks for a full
      answer too. */
  lemma AppliedExactly(current: Option<Snapshot>, m: Numbers)
    requires Safe(m.head.revision)
    ensures var stream := current.Some? && (current.value.head.epoch, current.value.head.queryKey) == (m.head.epoch, m.head.queryKey);
            var r := ApplyNumbers(current, m);
            && (!stream ==> r == Resync)
            && (stream ==>
                  var c := current.value.head;
                  var ahead := c.revision < m.head.revision
                               || (c.revision == m.head.revision && Millis(c.rangeEnd) < Millis(m.head.rangeEnd));
                  var based := (m.baseRevision, m.baseRangeEnd) == (c.revision, c.rangeEnd);
                  (r == Ignored <==> !ahead) && (r.Value? <==> ahead && based) && (r == Resync <==> ahead && !based))
            && (r.Value? ==> r.value.head == m.head && RowMap(r.value.sessions)
                             == (RowMap(current.value.sessions) - m.removed) + RowMap(m.changed))
  {
    if current.Some? {
      PatchMap(current.value.sessions, m.removed, m.changed);
    }
  }

  /** The browser's own loops: index its rows, delete, overwrite. */
  method Patch(current: Snapshot, m: Numbers) returns (rows: seq<Row>)
    ensures rows == UpsertAll(Drop(UpsertAll([], current.sessions), m.removed), m.changed)
  {
    rows := Overwrite([], current.sessions);
    rows := Delete(rows, m.removed);
    rows := Overwrite(rows, m.changed);
  }

  method Overwrite(rows: seq<Row>, more: seq<Row>) returns (r: seq<Row>)
    ensures r == UpsertAll(rows, more)
  {
    r := rows;
    for i := 0 to |more|
      invariant r == UpsertAll(rows, more[..i])
    {
      assert more[..i + 1][..i] == more[..i];
      r := Upsert(r, more[i]);
    }
    assert more[..|more|] == more;
  }

  method Delete(rows: seq<Row>, keys: set<Key>) returns (r: seq<Row>)
    ensures r == Drop(rows, keys)
  {
    hide Drop;
    r := rows;
    var rest := keys;
    DropNothing(rows);
    assert keys - rest == {};
    while rest != {}
      invariant rest <= keys && r == Drop(rows, keys - rest)
      decreases rest
    {
      var k :| k in rest;
      DropTwice(rows, keys - rest, {k});
      assert keys - rest + {k} == keys - (rest - {k});
      r := Drop(r, {k});
      rest := rest - {k};
    }
    assert keys - {} == keys;
  }

  lemma {:induction false} DropNothing(rows: seq<Row>)
    ensures Drop(rows, {}) == rows
  {
    if rows != [] {
      DropNothing(rows[..|rows| - 1]);
    }
  }

  lemma {:induction false} DropTwice(rows: seq<Row>, a: set<Key>, b: set<Key>)
    ensures Drop(Drop(rows, a), b) == Drop(rows, a + b)
  {
    if rows != [] {
      var rest, last := rows[..|rows| - 1], rows[|rows| - 1];
      DropTwice(rest, a, b);
      if last.key in a {
        assert Drop(rest, a) + [] == Drop(rest, a);
      } else {
        assert (Drop(rest, a) + [last])[..|Drop(rest, a)|] == Drop(rest, a);
      }
    }
  }

  /* ---- Rows by key ---- */

  function RowMap(rows: seq<Row>): map<Key, Row> {
    if rows == [] then map[] else RowMap(rows[..|rows| - 1])[rows[|rows| - 1].key := rows[|rows| - 1]]
  }

  lemma RowMapSnoc(rows: seq<Row>, row: Row)
    ensures RowMap(rows + [row]) == RowMap(rows)[row.key := row]
  {
    assert (rows + [row])[..|rows|] == rows;
  }

  lemma {:induction false} UpsertMap(rows: seq<Row>, row: Row)
    ensures RowMap(Upsert(rows, row)) == RowMap(rows)[row.key := row]
  {
    if !HasKey(rows, row.key) {
      RowMapSnoc(rows, row);
    } else {
      var rest, last := rows[..|rows| - 1], rows[|rows| - 1];
      if last.key == row.key {
        RowMapSnoc(rest, row);
      } else {
        UpsertMap(rest, row);
        RowMapSnoc(Upsert(rest, row), last);
      }
    }
  }

  lemma {:induction false} UpsertAllMap(rows: seq<Row>, more: seq<Row>)
    ensures RowMap(UpsertAll(rows, more)) == RowMap(rows) + RowMap(more)
  {
    if more != [] {
      var rest, last := more[..|more| - 1], more[|more| - 1];
      UpsertAllMap(rows, rest);
      UpsertMap(UpsertAll(rows, rest), last);
    }
  }

  lemma {:induction false} DropMap(rows: seq<Row>, keys: set<Key>)
    ensures RowMap(Drop(rows, keys)) == RowMap(rows) - keys
  {
    if rows != [] {
      var rest, last := rows[..|rows| - 1], rows[|rows| - 1];
      DropMap(rest, keys);
      if last.key in keys {
        assert Drop(rest, keys) + [] == Drop(rest, keys);
      } else {
        RowMapSnoc(Drop(rest, keys), last);
      }
    }
  }

  /** In terms of rows by key, a patch removes, then overwrites. */
  lemma {:induction false} PatchMap(rows: seq<Row>, removed: set<Key>, changed: seq<Row>)
    ensures RowMap(UpsertAll(Drop(UpsertAll([], rows), removed), changed)) == (RowMap(rows) - removed) + RowMap(changed)
  {
    UpsertAllMap([], rows);
    DropMap(UpsertAll([], rows), removed);
    UpsertAllMap(Drop(UpsertAll([], rows), removed), changed);
    assert map[] + RowMap(rows) == RowMap(rows);
  }

  /* ---- In which order ---- */

  function KeyList(rows: seq<Row>): seq<Key> { seq(|rows|, i requires 0 <= i < |rows| => rows[i].key) }

  /** Keys in the order they were first set. */
  function AddKeys(keys: seq<Key>, rows: seq<Row>): seq<Key> {
    if rows == [] then keys
    else
      var before, key := AddKeys(keys, rows[..|rows| - 1]), rows[|rows| - 1].key;
      if key in before then before else before + [key]
  }

  function RemoveKeys(keys: seq<Key>, removed: set<Key>): seq<Key> {
    if keys == [] then []
    else RemoveKeys(keys[..|keys| - 1], removed) + if keys[|keys| - 1] in removed then [] else [keys[|keys| - 1]]
  }

  lemma KeyListSnoc(rows: seq<Row>, row: Row)
    ensures KeyList(rows + [row]) == KeyList(rows) + [row.key]
  {
  }

  lemma {:induction false} UpsertKeys(rows: seq<Row>, row: Row)
    ensures KeyList(Upsert(rows, row)) == if row.key in KeyList(rows) then KeyList(rows) else KeyList(rows) + [row.key]
  {
    assert HasKey(rows, row.key) <==> row.key in KeyList(rows) by {
      forall i | 0 <= i < |rows| ensures KeyList(rows)[i] == rows[i].key {
      }
    }
    if !HasKey(rows, row.key) {
      KeyListSnoc(rows, row);
    } else {
      var rest, last := rows[..|rows| - 1], rows[|rows| - 1];
      assert rows == rest + [last];
      KeyListSnoc(rest, last);
      if last.key == row.key {
        KeyListSnoc(rest, row);
      } else {
        UpsertKeys(rest, row);
        KeyListSnoc(Upsert(rest, row), last);
        assert HasKey(rest, row.key);
        assert row.key in KeyList(rest) by { KeysListed(rest, row.key); }
      }
    }
  }

  lemma KeysListed(rows: seq<Row>, key: Key)
    ensures HasKey(rows, key) <==> key in KeyList(rows)
  {
    if i :| 0 <= i < |rows| && rows[i].key == key {
      assert KeyList(rows)[i] == key;
    }
  }

  lemma {:induction false} UpsertAllKeys(rows: seq<Row>, more: seq<Row>)
    ensures KeyList(UpsertAll(rows, more)) == AddKeys(KeyList(rows), more)
  {
    hide KeyList, Upsert;
    if more != [] {
      UpsertAllKeys(rows, more[..|more| - 1]);
      UpsertKeys(UpsertAll(rows, more[..|more| - 1]), more[|more| - 1]);
    }
  }

  lemma {:induction false} DropKeys(rows: seq<Row>, keys: set<Key>)
    ensures KeyList(Drop(rows, keys)) == RemoveKeys(KeyList(rows), keys)
  {
    if rows != [] {
      var rest, last := rows[..|rows| - 1], rows[|rows| - 1];
      DropKeys(rest, keys);
      assert rows == rest + [last];
      KeyListSnoc(rest, last);
      KeyListSnoc(Drop(rest, keys), last);
      assert KeyList(rows)[..|rest|] == KeyList(rest);
      assert RemoveKeys(KeyList(rest), keys) + [] == RemoveKeys(KeyList(rest), keys);
      assert Drop(rest, keys) + [] == Drop(rest, keys);
    }
  }

  /** The patched rows are listed as the browser had them, without the removed ones, and with the new ones at the end in the
      patch's order. */
  lemma PatchKeepsOrder(rows: seq<Row>, removed: set<Key>, changed: seq<Row>)
    ensures KeyList(UpsertAll(Drop(UpsertAll([], rows), removed), changed)) == AddKeys(RemoveKeys(AddKeys([], rows), removed), changed)
  {
    hide UpsertAll, Drop;
    assert KeyList([]) == [];
    UpsertAllKeys([], rows);
    DropKeys(UpsertAll([], rows), removed);
    UpsertAllKeys(Drop(UpsertAll([], rows), removed), changed);
  }
}
