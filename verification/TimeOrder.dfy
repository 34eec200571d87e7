/** Table rows in time order: selecting, sorting and mapping them, and reading a table on from a known id. */
module TimeOrder {
  import Clock

  datatype Stamped<+T> = Stamped(id: int, stamp: string, item: T)

  /** The order of the query and of the cache: by stored text, then by row id. */
  predicate Before<T>(a: Stamped<T>, b: Stamped<T>) {
    if a.stamp == b.stamp then a.id < b.id else Clock.Less(a.stamp, b.stamp)
  }

  function Insert<T>(s: seq<Stamped<T>>, x: Stamped<T>): seq<Stamped<T>> {
    if s == [] || !Before(x, s[|s| - 1]) then s + [x]
    else Insert(s[..|s| - 1], x) + [s[|s| - 1]]
  }

  function Sort<T>(s: seq<Stamped<T>>): seq<Stamped<T>> {
    if s == [] then [] else Insert(Sort(s[..|s| - 1]), s[|s| - 1])
  }

  ghost predicate Sorted<T>(s: seq<Stamped<T>>) {
    forall i, j :: 0 <= i < j < |s| ==> !Before(s[j], s[i])
  }

  function Map<T, U>(f: T -> U, s: seq<Stamped<T>>): (r: seq<Stamped<U>>)
    ensures |r| == |s|
  {
    if s == [] then []
    else
      var x := s[|s| - 1];
      Map(f, s[..|s| - 1]) + [Stamped(x.id, x.stamp, f(x.item))]
  }

  function Filter<T>(p: Stamped<T> -> bool, s: seq<Stamped<T>>): seq<Stamped<T>> {
    if s == [] then []
    else Filter(p, s[..|s| - 1]) + if p(s[|s| - 1]) then [s[|s| - 1]] else []
  }

  lemma BeforeIsOrder<T>(a: Stamped<T>, b: Stamped<T>, c: Stamped<T>)
    ensures !(Before(a, b) && Before(b, a))
    ensures !Before(b, a) && !Before(c, b) ==> !Before(c, a)
    ensures Before(a, b) && !Before(c, b) ==> Before(a, c)
  {
    Clock.LessTotal(a.stamp, b.stamp);
    Clock.LessTotal(b.stamp, c.stamp);
    Clock.LessTotal(a.stamp, c.stamp);
    if Clock.Less(a.stamp, b.stamp) && Clock.Less(b.stamp, c.stamp) {
      Clock.LessTransitive(a.stamp, b.stamp, c.stamp);
    }
    if Clock.Less(c.stamp, a.stamp) && Clock.Less(a.stamp, b.stamp) {
      Clock.LessTransitive(c.stamp, a.stamp, b.stamp);
    }
    if Clock.Less(b.stamp, c.stamp) && Clock.Less(c.stamp, a.stamp) {
      Clock.LessTransitive(b.stamp, c.stamp, a.stamp);
    }
  }

  /** Inserting keeps a sorted sequence sorted, and adds one element. */
  lemma {:induction false} InsertSorts<T>(s: seq<Stamped<T>>, x: Stamped<T>)
    requires Sorted(s)
    ensures Sorted(Insert(s, x))
    ensures multiset(Insert(s, x)) == multiset(s) + multiset{x}
  {
    hide Before;
    if s == [] || !Before(x, s[|s| - 1]) {
      forall i | 0 <= i < |s| ensures !Before(x, s[i]) {
        BeforeIsOrder(s[i], s[|s| - 1], x);
      }
    } else {
      var rest, last := s[..|s| - 1], s[|s| - 1];
      InsertSorts(rest, x);
      assert s == rest + [last];
      BeforeIsOrder(x, last, last);
      NothingAfter(Insert(rest, x), rest, x, last);
    }
  }

  lemma NothingAfter<T>(t: seq<Stamped<T>>, rest: seq<Stamped<T>>, x: Stamped<T>, last: Stamped<T>)
    requires multiset(t) == multiset(rest) + multiset{x} && Sorted(t)
    requires !Before(last, x) && forall i :: 0 <= i < |rest| ==> !Before(last, rest[i])
    ensures Sorted(t + [last])
  {
    hide Before;
    forall i | 0 <= i < |t| ensures !Before(last, t[i]) {
      assert t[i] in multiset(t);
      assert t[i] == x || t[i] in rest;
    }
  }

  lemma {:induction false} SortSorts<T>(s: seq<Stamped<T>>)
    ensures Sorted(Sort(s))
    ensures multiset(Sort(s)) == multiset(s)
  {
    if s != [] {
      var rest, last := s[..|s| - 1], s[|s| - 1];
      SortSorts(rest);
      InsertSorts(Sort(rest), last);
      assert s == rest + [last];
    }
  }

  ghost predicate Distinct<T>(s: seq<Stamped<T>>) {
    forall i, j :: 0 <= i < j < |s| ==> s[i].id != s[j].id
  }

  lemma SameLast<T>(s: seq<Stamped<T>>, t: seq<Stamped<T>>)
    requires Sorted(s) && Sorted(t) && Distinct(s) && s != [] && t != [] && multiset(s) == multiset(t)
    ensures s[|s| - 1] == t[|t| - 1]
  {
    var a, b := s[|s| - 1], t[|t| - 1];
    assert a in multiset(t) && b in multiset(s);
    assert a in t && b in s;
    Clock.LessTotal(a.stamp, b.stamp);
  }

  lemma WithoutLast<T>(s: seq<T>)
    requires s != []
    ensures multiset(s[..|s| - 1]) == multiset(s)[s[|s| - 1] := multiset(s)[s[|s| - 1]] - 1]
  {
    assert s == s[..|s| - 1] + [s[|s| - 1]];
  }

  /** Whatever algorithm sorts rows of distinct ids, there is only one sorted arrangement of them. */
  lemma {:induction false} OnlyOneOrder<T>(s: seq<Stamped<T>>, t: seq<Stamped<T>>)
    requires Sorted(s) && Sorted(t) && Distinct(s) && multiset(s) == multiset(t)
    ensures s == t
  {
    hide Before;
    assert |s| == |multiset(s)| == |multiset(t)| == |t|;
    if s != [] {
      SameLast(s, t);
      WithoutLast(s);
      WithoutLast(t);
      OnlyOneOrder(s[..|s| - 1], t[..|t| - 1]);
      assert s == s[..|s| - 1] + [s[|s| - 1]] && t == t[..|t| - 1] + [t[|t| - 1]];
    }
  }

  /** Sorting what is sorted already changes nothing, so it does not matter when the older rows were sorted. */
  lemma {:induction false} SortOfSorted<T>(s: seq<Stamped<T>>)
    requires Sorted(s)
    ensures Sort(s) == s
  {
    if s != [] {
      var rest := s[..|s| - 1];
      SortOfSorted(rest);
      assert s == rest + [s[|s| - 1]];
      assert rest != [] ==> rest[|rest| - 1] == s[|s| - 2];
    }
  }

  lemma {:induction false} Resort<T>(a: seq<Stamped<T>>, b: seq<Stamped<T>>)
    ensures Sort(Sort(a) + b) == Sort(a + b)
  {
    hide Insert, Sorted, Before;
    if b == [] {
      SortSorts(a);
      SortOfSorted(Sort(a));
      assert Sort(a) + b == Sort(a) && a + b == a;
    } else {
      var rest, last := b[..|b| - 1], b[|b| - 1];
      Resort(a, rest);
      assert (Sort(a) + b)[..|Sort(a) + b| - 1] == Sort(a) + rest && (a + b)[..|a + b| - 1] == a + rest;
    }
  }

  lemma {:induction false} InsertAfterAll<T>(s: seq<Stamped<T>>, x: Stamped<T>, p: Stamped<T> -> bool)
    requires Sorted(s) && s != [] && !Before(x, s[|s| - 1])
    ensures Insert(Filter(p, s), x) == Filter(p, s) + [x]
  {
    FilterKeeps(p, s);
    var f := Filter(p, s);
    if f != [] {
      var y := f[|f| - 1];
      assert y in Filter(p, s);
      assert y in s;
      var i :| 0 <= i < |s| && s[i] == y;
      BeforeIsOrder(s[i], s[|s| - 1], x);
    }
  }

  lemma {:induction false} FilterKeeps<T>(p: Stamped<T> -> bool, s: seq<Stamped<T>>)
    ensures forall x :: x in Filter(p, s) ==> x in s && p(x)
    ensures forall x :: x in s && p(x) ==> x in Filter(p, s)
  {
    if s != [] {
      FilterKeeps(p, s[..|s| - 1]);
      assert s == s[..|s| - 1] + [s[|s| - 1]];
    }
  }

  lemma FilterStep<T>(p: Stamped<T> -> bool, s: seq<Stamped<T>>, x: Stamped<T>)
    ensures Filter(p, s + [x]) == Filter(p, s) + if p(x) then [x] else []
  {
    assert (s + [x])[..|s|] == s;
  }

  lemma {:induction false} FilterInsert<T>(p: Stamped<T> -> bool, s: seq<Stamped<T>>, x: Stamped<T>)
    requires Sorted(s)
    ensures Filter(p, Insert(s, x)) == if p(x) then Insert(Filter(p, s), x) else Filter(p, s)
  {
    if s == [] || !Before(x, s[|s| - 1]) {
      FilterStep(p, s, x);
      if s != [] {
        InsertAfterAll(s, x, p);
      }
    } else {
      var rest, last := s[..|s| - 1], s[|s| - 1];
      FilterInsert(p, rest, x);
      FilterStep(p, Insert(rest, x), last);
      var f, g := Filter(p, rest), Filter(p, Insert(rest, x));
      assert (f + [last])[..|f|] == f && f + [] == f && g + [] == g;
    }
  }

  /** Selecting rows and sorting them commute. */
  lemma {:induction false} FilterSort<T>(p: Stamped<T> -> bool, s: seq<Stamped<T>>)
    ensures Filter(p, Sort(s)) == Sort(Filter(p, s))
  {
    if s != [] {
      var rest, last := s[..|s| - 1], s[|s| - 1];
      FilterSort(p, rest);
      SortSorts(rest);
      FilterInsert(p, Sort(rest), last);
      SortStep(Filter(p, rest), last);
    }
  }

  lemma SortStep<T>(s: seq<Stamped<T>>, x: Stamped<T>)
    ensures Sort(s + [x]) == Insert(Sort(s), x)
    ensures s + [] == s
  {
    assert (s + [x])[..|s|] == s;
  }

  lemma MapStep<T, U>(f: T -> U, s: seq<Stamped<T>>, x: Stamped<T>)
    ensures Map(f, s + [x]) == Map(f, s) + [Stamped(x.id, x.stamp, f(x.item))]
  {
    assert (s + [x])[..|s|] == s;
  }

  lemma {:induction false} MapInsert<T, U>(f: T -> U, s: seq<Stamped<T>>, x: Stamped<T>)
    ensures Map(f, Insert(s, x)) == Insert(Map(f, s), Stamped(x.id, x.stamp, f(x.item)))
  {
    if s == [] || !Before(x, s[|s| - 1]) {
      MapStep(f, s, x);
    } else {
      var rest, last := s[..|s| - 1], s[|s| - 1];
      MapInsert(f, rest, x);
      MapStep(f, Insert(rest, x), last);
      assert Map(f, s)[..|s| - 1] == Map(f, rest);
    }
  }

  /** Sorting looks at stamps and ids only, so pricing before or after it is the same. */
  lemma {:induction false} MapSort<T, U>(f: T -> U, s: seq<Stamped<T>>)
    ensures Map(f, Sort(s)) == Sort(Map(f, s))
  {
    if s != [] {
      var rest, last := s[..|s| - 1], s[|s| - 1];
      MapSort(f, rest);
      MapInsert(f, Sort(rest), last);
      SortStep(Map(f, rest), Stamped(last.id, last.stamp, f(last.item)));
    }
  }

  lemma {:induction false} MapJoins<T, U>(f: T -> U, a: seq<Stamped<T>>, b: seq<Stamped<T>>)
    ensures Map(f, a + b) == Map(f, a) + Map(f, b)
  {
    if b == [] {
      assert a + b == a;
    } else {
      MapJoins(f, a, b[..|b| - 1]);
      assert (a + b)[..|a + b| - 1] == a + b[..|b| - 1];
    }
  }

  lemma {:induction false} MapAt<T, U>(f: T -> U, s: seq<Stamped<T>>, k: nat)
    requires k < |s|
    ensures Map(f, s)[k] == Stamped(s[k].id, s[k].stamp, f(s[k].item))
    ensures Map(f, s)[..k] == Map(f, s[..k])
  {
    if k < |s| - 1 {
      MapAt(f, s[..|s| - 1], k);
      assert s[..|s| - 1][..k] == s[..k];
    }
  }

  /* ---- Reading a table on ---- */

  /** Ids are handed out in increasing order, from 1. */
  ghost predicate Ascending<T>(rows: seq<Stamped<T>>) {
    && (forall i :: 0 <= i < |rows| ==> 1 <= rows[i].id)
    && forall i, j :: 0 <= i < j < |rows| ==> rows[i].id < rows[j].id
  }

  function MaxId<T>(rows: seq<Stamped<T>>): int { if rows == [] then 0 else rows[|rows| - 1].id }

  function Newer<T>(id: int): Stamped<T> -> bool { (r: Stamped<T>) => id < r.id }

  function UpTo<T>(rows: seq<Stamped<T>>, id: int): seq<Stamped<T>> {
    if rows == [] || rows[|rows| - 1].id <= id then rows else UpTo(rows[..|rows| - 1], id)
  }

  lemma {:induction false} SplitAt<T>(rows: seq<Stamped<T>>, id: int)
    requires Ascending(rows)
    ensures rows == UpTo(rows, id) + Filter(Newer(id), rows)
  {
    hide Ascending;
    AscendingPrefix(rows);
    if rows != [] && rows[|rows| - 1].id > id {
      var rest, last := rows[..|rows| - 1], rows[|rows| - 1];
      SplitAt(rest, id);
      assert rows == rest + [last];
      assert (UpTo(rest, id) + Filter(Newer(id), rest)) + [last] == UpTo(rest, id) + (Filter(Newer(id), rest) + [last]);
    } else {
      NothingNewer(rows, id);
    }
  }

  lemma AscendingPrefix<T>(rows: seq<Stamped<T>>)
    requires Ascending(rows)
    ensures rows != [] ==> Ascending(rows[..|rows| - 1])
  {
  }

  lemma {:induction false} NothingNewer<T>(rows: seq<Stamped<T>>, id: int)
    requires Ascending(rows) && (rows == [] || rows[|rows| - 1].id <= id)
    ensures Filter(Newer(id), rows) == [] && rows + [] == rows
  {
    if rows != [] {
      NothingNewer(rows[..|rows| - 1], id);
    }
  }

  lemma {:induction false} UpToPrefix<T>(ledger: seq<Stamped<T>>, rows: seq<Stamped<T>>, id: int)
    requires Ascending(ledger) && rows <= ledger && 0 <= id <= MaxId(rows)
    ensures UpTo(ledger, id) == UpTo(rows, id)
  {
    if |rows| < |ledger| {
      UpToPrefix(ledger[..|ledger| - 1], rows, id);
    } else {
      assert rows == ledger;
    }
  }

  lemma {:induction false} UpToAll<T>(rows: seq<Stamped<T>>, id: int)
    requires Ascending(rows)
    ensures UpTo(rows, MaxId(rows)) == rows
    ensures UpTo(rows, 0) == []
    ensures |UpTo(rows, id)| <= |rows|
  {
    if rows != [] {
      UpToAll(rows[..|rows| - 1], id);
    }
  }

  /** Mapping the newer rows, appending them and sorting again gives what sorting the whole mapped table gives. */
  lemma ReadOn<T, U>(f: T -> U, rows: seq<Stamped<T>>, id: int)
    requires Ascending(rows)
    ensures Sort(Sort(Map(f, UpTo(rows, id))) + Map(f, Filter(Newer(id), rows))) == Sort(Map(f, rows))
  {
    var older, newer := UpTo(rows, id), Filter(Newer(id), rows);
    SplitAt(rows, id);
    MapJoins(f, older, newer);
    Resort(Map(f, older), Map(f, newer));
  }

  /** If a test of a mapped row agrees with a test of the row, the tests select the same rows. */
  lemma {:induction false} FilterMap<T, U>(p: Stamped<T> -> bool, q: Stamped<U> -> bool, f: T -> U, rows: seq<Stamped<T>>)
    requires forall i :: 0 <= i < |rows| ==> (p(rows[i]) <==> q(Stamped(rows[i].id, rows[i].stamp, f(rows[i].item))))
    ensures Filter(q, Map(f, rows)) == Map(f, Filter(p, rows))
  {
    if rows != [] {
      var rest, last := rows[..|rows| - 1], rows[|rows| - 1];
      FilterMap(p, q, f, rest);
      FilterStep(q, Map(f, rest), Stamped(last.id, last.stamp, f(last.item)));
      MapStep(f, Filter(p, rest), last);
      assert Filter(p, rest) + [] == Filter(p, rest);
    }
  }
}
