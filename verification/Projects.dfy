/** Project totals, grouped from the rows of a view (projectTotalsFromRows in numeric_incremental.go). */
module Projects {
  import opened Snapshots
  import opened Wire
  import Clock

  type Group = (string, string)  // host, project

  function GroupOf(r: Row): Group { (r.key.0, r.project) }

  /** A task counts under its parent, or under itself when it has none. */
  function RootOf(r: Row): string { if r.parent == "" then r.key.1 else r.parent }

  function NoProject(g: Group): ProjectRow { ProjectRow(g.0, g.1, {}, 0, 0, 0, 0, 0.0, 0.0, 0.0) }

  function Grow(p: ProjectRow, r: Row): ProjectRow {
    ProjectRow(p.host, p.project, p.roots + {RootOf(r)}, p.records + 1,
               p.input + r.counts.input, p.output + r.counts.output, p.total + r.counts.total,
               p.apiCost + r.apiCost, p.vercelCost + r.vercelCost, p.credits + r.credits)
  }

  /** The aggregate of the rows of one group, in order. */
  function Aggregate(rows: seq<Row>, g: Group): ProjectRow {
    if rows == [] then NoProject(g)
    else
      var before, r := Aggregate(rows[..|rows| - 1], g), rows[|rows| - 1];
      if GroupOf(r) == g then Grow(before, r) else before
  }

  function GroupsOf(rows: seq<Row>): set<Group> { set r | r in rows :: GroupOf(r) }

  function Groups(rows: seq<Row>): map<Group, ProjectRow> {
    map g | g in GroupsOf(rows) :: Aggregate(rows, g)
  }

  /** By host, then the largest total first, then by name. */
  predicate Before(a: ProjectRow, b: ProjectRow) {
    if a.host != b.host then Clock.Less(a.host, b.host)
    else if a.total == b.total then Clock.Less(a.project, b.project)
    else a.total > b.total
  }

  ghost predicate Ranked(list: seq<ProjectRow>) {
    forall i, j :: 0 <= i < j < |list| ==> Before(list[i], list[j])
  }

  /** `list` holds every group's aggregate and nothing else. */
  ghost predicate Holds(list: seq<ProjectRow>, groups: map<Group, ProjectRow>) {
    && (forall p :: p in list ==> (p.host, p.project) in groups && groups[(p.host, p.project)] == p)
    && (forall g :: g in groups ==> groups[g] in list)
  }

  lemma BeforeIsOrder(a: ProjectRow, b: ProjectRow, c: ProjectRow)
    ensures !(Before(a, b) && Before(b, a))
    ensures Before(a, b) && Before(b, c) ==> Before(a, c)
    ensures !Before(a, b) && !Before(b, a) ==> a.host == b.host && a.project == b.project
  {
    Clock.LessTotal(a.host, b.host);
    Clock.LessTotal(a.project, b.project);
    if Clock.Less(a.host, b.host) && Clock.Less(b.host, c.host) {
      Clock.LessTransitive(a.host, b.host, c.host);
      Clock.LessTotal(a.host, c.host);
    }
    if Clock.Less(a.project, b.project) && Clock.Less(b.project, c.project) {
      Clock.LessTransitive(a.project, b.project, c.project);
    }
    Clock.LessTotal(b.host, c.host);
  }

  function Insert(list: seq<ProjectRow>, p: ProjectRow): seq<ProjectRow> {
    if list == [] || Before(list[|list| - 1], p) then list + [p]
    else Insert(list[..|list| - 1], p) + [list[|list| - 1]]
  }

  lemma {:induction false} InsertRanks(list: seq<ProjectRow>, p: ProjectRow)
    requires Ranked(list) && forall q :: q in list ==> (q.host, q.project) != (p.host, p.project)
    ensures Ranked(Insert(list, p))
    ensures forall q :: q in Insert(list, p) <==> q in list || q == p
  {
    hide Before;
    if list == [] || Before(list[|list| - 1], p) {
      forall i | 0 <= i < |list| ensures Before(list[i], p) {
        BeforeIsOrder(list[i], list[|list| - 1], p);
      }
    } else {
      var rest, last := list[..|list| - 1], list[|list| - 1];
      assert last in list && list == rest + [last];
      InsertRanks(rest, p);
      BeforeIsOrder(last, p, p);
      RankedBelow(Insert(rest, p), rest, p, last);
    }
  }

  lemma RankedBelow(t: seq<ProjectRow>, rest: seq<ProjectRow>, p: ProjectRow, last: ProjectRow)
    requires Ranked(t) && Before(p, last)
    requires forall q :: q in t <==> q in rest || q == p
    requires forall i :: 0 <= i < |rest| ==> Before(rest[i], last)
    ensures Ranked(t + [last])
  {
    hide Before;
    forall i | 0 <= i < |t| ensures Before(t[i], last) {
      assert t[i] in t;
    }
  }

  lemma SameTop(s: seq<ProjectRow>, t: seq<ProjectRow>)
    requires Ranked(s) && Ranked(t) && s != [] && t != [] && forall p :: p in s <==> p in t
    ensures s[|s| - 1] == t[|t| - 1]
  {
    hide Before;
    var a, b := s[|s| - 1], t[|t| - 1];
    assert a in s && b in t && a in t && b in s;
    var i :| 0 <= i < |t| && t[i] == a;
    var j :| 0 <= j < |s| && s[j] == b;
    BeforeIsOrder(a, b, b);
  }

  lemma WithoutTop(s: seq<ProjectRow>)
    requires Ranked(s) && s != []
    ensures forall p :: p in s[..|s| - 1] <==> p in s && p != s[|s| - 1]
  {
    hide Before;
    var rest, top := s[..|s| - 1], s[|s| - 1];
    assert s == rest + [top];
    BeforeIsOrder(top, top, top);
    forall p | p in rest ensures p != top {
      var i :| 0 <= i < |rest| && rest[i] == p;
      assert Before(s[i], s[|s| - 1]);
    }
  }

  lemma NothingListed(s: seq<ProjectRow>, t: seq<ProjectRow>)
    requires forall p :: p in s ==> p in t
    ensures t == [] ==> s == []
  {
    if s != [] {
      assert s[0] in s;
    }
  }

  /** There is only one ranked list of given aggregates, so the unordered way the groups are collected in, and the
      sorting algorithm, do not matter. */
  lemma {:induction false} OnlyOneRanking(s: seq<ProjectRow>, t: seq<ProjectRow>)
    requires Ranked(s) && Ranked(t) && forall p :: p in s <==> p in t
    ensures s == t
    decreases |s|
  {
    hide Before;
    NothingListed(s, t);
    NothingListed(t, s);
    if s != [] {
      SameTop(s, t);
      WithoutTop(s);
      WithoutTop(t);
      var u, v := s[..|s| - 1], t[..|t| - 1];
      forall p ensures p in u <==> p in v {
        assert (p in s) == (p in t);
      }
      OnlyOneRanking(u, v);
      assert s == s[..|s| - 1] + [s[|s| - 1]] && t == t[..|t| - 1] + [t[|t| - 1]];
    }
  }

  lemma {:induction false} AggregateNames(rows: seq<Row>, g: Group)
    ensures Aggregate(rows, g).host == g.0 && Aggregate(rows, g).project == g.1
    ensures g !in GroupsOf(rows) ==> Aggregate(rows, g) == NoProject(g)
  {
    if rows != [] {
      var rest, last := rows[..|rows| - 1], rows[|rows| - 1];
      AggregateNames(rest, g);
      assert last in rows && forall r :: r in rest ==> r in rows;
    }
  }

  method Collect(rows: seq<Row>) returns (groups: map<Group, ProjectRow>)
    ensures groups == Groups(rows)
  {
    groups := map[];
    for i := 0 to |rows|
      invariant groups == Groups(rows[..i])
    {
      var r := rows[i];
      assert rows[..i + 1] == rows[..i] + [r];
      AggregateNames(rows[..i], GroupOf(r));
      groups := groups[GroupOf(r) := Grow(if GroupOf(r) in groups then groups[GroupOf(r)] else NoProject(GroupOf(r)), r)];
      assert groups.Keys == GroupsOf(rows[..i + 1]);
    }
    assert rows[..|rows|] == rows;
  }

  /** The groups come in whatever order the map yields them. */
  method ProjectTotals(rows: seq<Row>) returns (list: seq<ProjectRow>)
    ensures Ranked(list) && Holds(list, Groups(rows))
    ensures forall i, j :: 0 <= i < j < |list| && list[i].host == list[j].host ==> list[i].total >= list[j].total
    ensures forall i, j :: 0 <= i < j < |list| && list[i].host == list[j].host && list[i].total == list[j].total ==>
              Clock.Less(list[i].project, list[j].project)
    ensures forall i, j :: 0 <= i < j < |list| && list[i].host != list[j].host ==> Clock.Less(list[i].host, list[j].host)
  {
    hide Aggregate;
    var groups := Collect(rows);
    list := [];
    var rest := groups.Keys;
    while rest != {}
      invariant rest <= groups.Keys && Ranked(list)
      invariant forall p :: p in list ==> (p.host, p.project) in groups.Keys - rest && groups[(p.host, p.project)] == p
      invariant forall g :: g in groups.Keys - rest ==> groups[g] in list
      decreases rest
    {
      var g :| g in rest;
      AggregateNames(rows, g);
      InsertRanks(list, groups[g]);
      list := Insert(list, groups[g]);
      rest := rest - {g};
    }
  }

  /* ---- Nothing is lost in grouping ---- */

  datatype Sums = Sums(records: int, input: int, output: int, total: int, apiCost: real, vercelCost: real, credits: real) {
    function Plus(more: Sums): Sums {
      Sums(records + more.records, input + more.input, output + more.output, total + more.total,
           apiCost + more.apiCost, vercelCost + more.vercelCost, credits + more.credits)
    }
  }

  const NO_SUMS := Sums(0, 0, 0, 0, 0.0, 0.0, 0.0)

  function OfProject(p: ProjectRow): Sums {
    Sums(p.records, p.input, p.output, p.total, p.apiCost, p.vercelCost, p.credits)
  }

  function OfRow(r: Row): Sums { Sums(1, r.counts.input, r.counts.output, r.counts.total, r.apiCost, r.vercelCost, r.credits) }

  function SumRows(rows: seq<Row>): Sums {
    if rows == [] then NO_SUMS else SumRows(rows[..|rows| - 1]).Plus(OfRow(rows[|rows| - 1]))
  }

  ghost function SumGroups(m: map<Group, ProjectRow>): Sums
    decreases |m|
  {
    if m == map[] then NO_SUMS
    else
      var g :| g in m;
      SumGroups(m - {g}).Plus(OfProject(m[g]))
  }

  lemma {:induction false} SumWithout(m: map<Group, ProjectRow>, g: Group)
    requires g in m
    ensures SumGroups(m) == SumGroups(m - {g}).Plus(OfProject(m[g]))
    decreases |m|
  {
    hide OfProject;
    var first :| first in m && SumGroups(m) == SumGroups(m - {first}).Plus(OfProject(m[first]));
    if first != g {
      SumWithout(m - {first}, g);
      SumWithout(m - {g}, first);
      assert m - {first} - {g} == m - {g} - {first};
      PlusCommutes(SumGroups(m - {first} - {g}), OfProject(m[g]), OfProject(m[first]));
    }
  }

  lemma PlusCommutes(x: Sums, y: Sums, z: Sums)
    ensures x.Plus(y).Plus(z) == x.Plus(z).Plus(y)
  {
  }

  lemma GroupsGrow(rows: seq<Row>)
    requires rows != []
    ensures var rest, last := Groups(rows[..|rows| - 1]), rows[|rows| - 1];
            var g := GroupOf(last);
            Groups(rows) == rest[g := Grow(if g in rest then rest[g] else NoProject(g), last)]
  {
    hide Grow;
    var before, last := rows[..|rows| - 1], rows[|rows| - 1];
    assert rows == before + [last];
    AggregateNames(before, GroupOf(last));
    assert GroupsOf(rows) == GroupsOf(before) + {GroupOf(last)};
  }

  lemma SumGrows(m: map<Group, ProjectRow>, g: Group, r: Row)
    ensures SumGroups(m[g := Grow(if g in m then m[g] else NoProject(g), r)]) == SumGroups(m).Plus(OfRow(r))
  {
    hide SumGroups;
    var all := m[g := Grow(if g in m then m[g] else NoProject(g), r)];
    SumWithout(all, g);
    if g in m {
      SumWithout(m, g);
      assert all - {g} == m - {g};
    } else {
      assert all - {g} == m;
    }
  }

  lemma NoGroups()
    ensures Groups([]) == map[] && SumGroups(map[]) == NO_SUMS
  {
  }

  /** The groups partition the rows: in every column their sums, and their record counts, are those of the rows. */
  lemma {:induction false} GroupsPartition(rows: seq<Row>)
    ensures SumGroups(Groups(rows)) == SumRows(rows)
  {
    hide Groups, Grow, SumGroups;
    if rows == [] {
      NoGroups();
    } else {
      var before, last := rows[..|rows| - 1], rows[|rows| - 1];
      GroupsPartition(before);
      GroupsGrow(rows);
      SumGrows(Groups(before), GroupOf(last), last);
    }
  }

  /** A project counts the distinct tasks, each under its root, that have a row in it. */
  lemma {:induction false} RootsAreTasks(rows: seq<Row>, g: Group)
    ensures Aggregate(rows, g).roots == set r | r in rows && GroupOf(r) == g :: RootOf(r)
  {
    if rows != [] {
      RootsAreTasks(rows[..|rows| - 1], g);
      assert rows == rows[..|rows| - 1] + [rows[|rows| - 1]];
    }
  }

  /** The rows of one project of one host. */
  function OfGroup(rows: seq<Row>, host: string, project: string): seq<Row> {
    if rows == [] then []
    else
      var r := rows[|rows| - 1];
      OfGroup(rows[..|rows| - 1], host, project) + if r.key.0 == host && r.project == project then [r] else []
  }

  /** A project's sums are those of its own rows, and its tasks are the parents of its rows, or the conversations themselves
      where they have none. */
  lemma {:induction false} ProjectOfItsRows(rows: seq<Row>, host: string, project: string)
    ensures var p := Aggregate(rows, (host, project));
            && OfProject(p) == SumRows(OfGroup(rows, host, project))
            && p.roots == (set r | r in OfGroup(rows, host, project) :: if r.parent == "" then r.key.1 else r.parent)
            && (p.host, p.project) == (host, project)
  {
    hide Grow, OfProject, OfRow;
    if rows == [] {
      NothingGrown((host, project));
    } else {
      var before, r := rows[..|rows| - 1], rows[|rows| - 1];
      ProjectOfItsRows(before, host, project);
      GrowAdds(Aggregate(before, (host, project)), r);
      OfGroupSnoc(OfGroup(before, host, project), r);
    }
  }

  lemma NothingGrown(g: Group)
    ensures OfProject(NoProject(g)) == NO_SUMS
  {
  }

  lemma GrowAdds(p: ProjectRow, r: Row)
    ensures OfProject(Grow(p, r)) == OfProject(p).Plus(OfRow(r))
    ensures Grow(p, r).roots == p.roots + {if r.parent == "" then r.key.1 else r.parent}
    ensures (Grow(p, r).host, Grow(p, r).project) == (p.host, p.project)
  {
  }

  lemma OfGroupSnoc(own: seq<Row>, r: Row)
    ensures own + [] == own && SumRows(own + [r]) == SumRows(own).Plus(OfRow(r))
    ensures forall x :: x in own + [r] <==> x in own || x == r
  {
    hide OfRow;
    assert (own + [r])[..|own|] == own;
  }
}
