/** The cache of priced events (accounting_cache.go) against the query it replaces (rangeCosts in pricing.go). */
module PricingCache {
  import opened Wrappers
  import opened Wire
  import opened Pricing
  import opened TimeOrder
  import Clock

  /* ---- Ledger rows and their prices ---- */

  datatype Usage = Usage(host: string, conversation: string, at: Clock.Stamp, digits: nat, counts: Tokens, visible: bool)
  datatype Priced = Priced(key: Key, moment: string, cost: ProviderCosts)

  type Row = Stamped<Usage>
  type PricedEvent = Stamped<Priced>

  /** The stored text is the UTC text of the instant it parses to. */
  predicate WellTimed(r: Row) {
    Clock.Fits(r.item.at, r.item.digits) && r.stamp == Clock.Text(r.item.at, r.item.digits)
  }

  ghost predicate Table(rows: seq<Row>) {
    Ascending(rows) && forall i :: 0 <= i < |rows| ==> WellTimed(rows[i])
  }

  function Price(rules: seq<PriceRule>, u: Usage): Priced {
    Priced((u.host, u.conversation), Clock.UsageBound(u.at),
           PriceEvent(rules, u.counts, u.visible, Clock.Prefix(u.at) + "Z"))
  }

  function Pricer(rules: seq<PriceRule>): Usage -> Priced { (u: Usage) => Price(rules, u) }

  function InRange(start: Clock.Stamp, end: Clock.Stamp): Row -> bool { (r: Row) => Clock.InWindow(r.stamp, start, end) }

  function During(start: Clock.Stamp, end: Clock.Stamp): PricedEvent -> bool {
    (e: PricedEvent) => !Clock.Less(e.item.moment, Clock.UsageBound(start)) && Clock.Less(e.item.moment, Clock.UsageBound(end))
  }

  function Items(events: seq<PricedEvent>): seq<(Key, ProviderCosts)> {
    seq(|events|, i requires 0 <= i < |events| => (events[i].item.key, events[i].item.cost))
  }

  /** The rows a range query returns, in its order. */
  function Selected(rows: seq<Row>, start: Clock.Stamp, end: Clock.Stamp): seq<Row> {
    Sort(Filter(InRange(start, end), rows))
  }

  /** The reference: re-read the window, price every row, fold in time order. Without rules it answers nothing. */
  function Reference(rules: Option<seq<PriceRule>>, rows: seq<Row>, start: Clock.Stamp, end: Clock.Stamp): Totals {
    if rules.None? then Totals(NO_COSTS, map[])
    else Fold(Items(Map(Pricer(rules.value), Selected(rows, start, end))))
  }

  lemma ItemsStep(events: seq<PricedEvent>, n: nat)
    requires n < |events|
    ensures Items(events[..n + 1]) == Items(events[..n]) + [(events[n].item.key, events[n].item.cost)]
    ensures Fold(Items(events[..n + 1])) == Post(Fold(Items(events[..n])), events[n].item.key, events[n].item.cost)
  {
    var next := Items(events[..n + 1]);
    assert next == Items(events[..n]) + [(events[n].item.key, events[n].item.cost)];
    assert next[..|next| - 1] == Items(events[..n]);
  }

  /** The loop over the query's result. */
  method RangeCosts(rules: seq<PriceRule>, found: seq<Row>) returns (t: Totals)
    ensures t == Fold(Items(Map(Pricer(rules), found)))
  {
    hide CostFromRules, AddCost;
    var total, sessions := NO_COSTS, map[];
    ghost var priced := Map(Pricer(rules), found);
    assert Items(priced[..0]) == [];
    for i := 0 to |found|
      invariant Totals(total, sessions) == Fold(Items(priced[..i]))
    {
      var u := found[i].item;
      var cost := PriceEvent(rules, u.counts, u.visible, Clock.Prefix(u.at) + "Z");
      total := AddProviderCosts(total, cost);
      var key := (u.host, u.conversation);
      var session := if key in sessions then sessions[key] else NO_COSTS;
      sessions := sessions[key := AddProviderCosts(session, cost)];
      MapAt(Pricer(rules), found, i);
      ItemsStep(priced, i);
    }
    assert priced[..|found|] == priced;
    t := Totals(total, sessions);
  }

  /* ---- The cache as a value ---- */

  const MAX_CACHED_COST_EVENTS := 500_000

  datatype Cache = Cache(rules: seq<PriceRule>, events: seq<PricedEvent>, maxId: int)

  const EMPTY := Cache([], [], 0)

  /** Everything is dropped when the prices changed. */
  function Reset(c: Cache, rules: seq<PriceRule>, rows: seq<Row>): Cache {
    if rules != c.rules || |rows| < |c.events| then Cache(rules, [], 0) else c
  }

  /** Then the rows not seen yet are priced. */
  function Refresh(c: Cache, rules: seq<PriceRule>, rows: seq<Row>): Cache {
    var base := Reset(c, rules, rows);
    if MaxId(rows) > base.maxId
    then Cache(rules, Sort(base.events + Map(Pricer(rules), Filter(Newer(base.maxId), rows))), MaxId(rows))
    else base
  }

  predicate Bypassed(c: Cache, rules: Option<seq<PriceRule>>, rows: seq<Row>) {
    rules.None? || |rows| > MAX_CACHED_COST_EVENTS || MaxId(rows) < c.maxId
  }

  datatype Request = Request(rules: Option<seq<PriceRule>>, rows: seq<Row>, start: Clock.Stamp, end: Clock.Stamp)

  function Serve(c: Cache, q: Request): (Cache, Totals) {
    if Bypassed(c, q.rules, q.rows) then (c, Reference(q.rules, q.rows, q.start, q.end))
    else
      var now := Refresh(c, q.rules.value, q.rows);
      (now, Fold(Items(Filter(During(q.start, q.end), now.events))))
  }

  /* ---- The cache mirrors the ledger ---- */

  /** The cached events are the sorted prices of exactly the rows up to the largest id seen. */
  ghost predicate Mirrors(c: Cache, ledger: seq<Row>) {
    0 <= c.maxId && c.events == Sort(Map(Pricer(c.rules), UpTo(ledger, c.maxId)))
  }

  /** What is left after a possible reset is the sorted prices of the rows up to its largest id. */
  lemma {:induction false} ResetMirrors(c: Cache, rules: seq<PriceRule>, rows: seq<Row>, ledger: seq<Row>)
    requires Ascending(ledger) && rows <= ledger && Mirrors(c, ledger) && c.maxId <= MaxId(rows)
    ensures var base := Reset(c, rules, rows);
            0 <= base.maxId <= MaxId(rows) && base.rules == rules
            && base.events == Sort(Map(Pricer(rules), UpTo(rows, base.maxId)))
  {
    hide Price;
    UpToPrefix(ledger, rows, c.maxId);
    UpToAll(rows, c.maxId);
  }

  lemma {:induction false} RefreshMirrors(c: Cache, rules: seq<PriceRule>, rows: seq<Row>, ledger: seq<Row>)
    requires Ascending(ledger) && rows <= ledger && Mirrors(c, ledger) && c.maxId <= MaxId(rows)
    ensures var now := Refresh(c, rules, rows);
            && Mirrors(now, ledger) && now.rules == rules && now.events == Sort(Map(Pricer(rules), rows))
  {
    hide Price, Reset, Sort, Map, Filter;
    ResetMirrors(c, rules, rows, ledger);
    var base := Reset(c, rules, rows);
    UpToPrefix(ledger, rows, MaxId(rows));
    UpToAll(rows, 0);
    ReadOn(Pricer(rules), rows, base.maxId);
  }

  /** Selecting by the cached normalised moment is the database's window test on the stored text. */
  lemma {:induction false} FilterPriced(rules: seq<PriceRule>, rows: seq<Row>, start: Clock.Stamp, end: Clock.Stamp)
    requires Table(rows)
    ensures Filter(During(start, end), Map(Pricer(rules), rows)) == Map(Pricer(rules), Filter(InRange(start, end), rows))
  {
    forall i | 0 <= i < |rows|
      ensures InRange(start, end)(rows[i])
         <==> During(start, end)(Stamped(rows[i].id, rows[i].stamp, Pricer(rules)(rows[i].item)))
    {
      SameTest(rules, rows[i], start, end);
    }
    FilterMap(InRange(start, end), During(start, end), Pricer(rules), rows);
  }

  lemma {:induction false} SameTest(rules: seq<PriceRule>, r: Row, start: Clock.Stamp, end: Clock.Stamp)
    requires WellTimed(r)
    ensures InRange(start, end)(r) <==> During(start, end)(Stamped(r.id, r.stamp, Price(rules, r.item)))
  {
    Clock.ClockIsBound(r.item.at, r.item.digits);
  }

  /** A cache that mirrors the ledger answers what the reference does, and goes on mirroring it. */
  lemma {:induction false} ServeIsReference(c: Cache, q: Request, ledger: seq<Row>)
    requires Table(ledger) && q.rows <= ledger && Mirrors(c, ledger)
    ensures Serve(c, q).1 == Reference(q.rules, q.rows, q.start, q.end)
    ensures Mirrors(Serve(c, q).0, ledger)
  {
    hide WellTimed, Price, InRange, During, Refresh, Fold, Items;
    if !Bypassed(c, q.rules, q.rows) {
      var rules, rows := q.rules.value, q.rows;
      var f := Pricer(rules);
      RefreshMirrors(c, rules, rows, ledger);
      FilterSort(During(q.start, q.end), Map(f, rows));
      FilterPriced(rules, rows, q.start, q.end);
      MapSort(f, Filter(InRange(q.start, q.end), rows));
    }
  }

  function ServeAll(qs: seq<Request>): (Cache, seq<Totals>) {
    if qs == [] then (EMPTY, [])
    else
      var (c, answers) := ServeAll(qs[..|qs| - 1]);
      var (now, answer) := Serve(c, qs[|qs| - 1]);
      (now, answers + [answer])
  }

  /** Over any history of requests — readers of any age, any price tables, any windows, any number of rows — every
      answer is the reference's answer to the same request. */
  lemma {:induction false} CacheRefinesReference(qs: seq<Request>, ledger: seq<Row>)
    requires Table(ledger) && forall i :: 0 <= i < |qs| ==> qs[i].rows <= ledger
    ensures |ServeAll(qs).1| == |qs| && Mirrors(ServeAll(qs).0, ledger)
    ensures forall i :: 0 <= i < |qs| ==>
              ServeAll(qs).1[i] == Reference(qs[i].rules, qs[i].rows, qs[i].start, qs[i].end)
  {
    hide WellTimed, Price, Serve, Reference, Refresh;
    if qs == [] {
      UpToAll(ledger, 0);
    } else {
      var rest, last := qs[..|qs| - 1], qs[|qs| - 1];
      CacheRefinesReference(rest, ledger);
      ServeIsReference(ServeAll(rest).0, last, ledger);
      forall i | 0 <= i < |rest| ensures ServeAll(qs).1[i] == Reference(qs[i].rules, qs[i].rows, qs[i].start, qs[i].end) {
        assert qs[i] == rest[i];
      }
    }
  }

  /* ---- What the answers add up to ---- */

  lemma {:induction false} FilterSelects<T>(p: Stamped<T> -> bool, s: seq<Stamped<T>>)
    ensures forall x :: x in Filter(p, s) ==> x in s
  {
    if s != [] {
      FilterSelects(p, s[..|s| - 1]);
    }
  }

  lemma SelectedFrom(rows: seq<Row>, start: Clock.Stamp, end: Clock.Stamp)
    ensures forall r :: r in Selected(rows, start, end) ==> r in rows
  {
    var filtered := Filter(InRange(start, end), rows);
    FilterSelects(InRange(start, end), rows);
    SortSorts(filtered);
    forall r | r in Selected(rows, start, end) ensures r in rows {
      assert r in multiset(Sort(filtered)) && r in multiset(filtered);
    }
  }

  lemma PricedItem(rules: seq<PriceRule>, found: seq<Row>, i: nat)
    requires i < |found|
    ensures var u := found[i].item;
            Items(Map(Pricer(rules), found))[i].1 == PriceEvent(rules, u.counts, u.visible, Clock.Prefix(u.at) + "Z")
  {
    MapAt(Pricer(rules), found, i);
  }

  predicate Multiplies(rules: seq<PriceRule>) { forall k :: 0 <= k < |rules| ==> 0.0 <= rules[k].inputMultiplier }

  lemma PriceBelowUpper(rules: seq<PriceRule>, c: Tokens, visible: bool, second: string, p: Provider)
    requires Multiplies(rules) && c.NonNegative()
    ensures var cost := Pricing.Part(PriceEvent(rules, c, visible, second), p); cost.value <= EffectiveUpper(cost)
  {
    UpperFromRules(rules, "openai", "API", "gpt-5.6-sol", c, visible, second);
    UpperFromRules(rules, "vercel", "AI Gateway public", "openai/gpt-5.6-sol", c, visible, second);
    UpperFromRules(rules, "codex", "Plus/Pro Current", "gpt-5.6-sol", c, visible, second);
  }

  lemma PricedFold(rules: seq<PriceRule>, found: seq<Row>, p: Provider)
    ensures var t := Fold(Items(Map(Pricer(rules), found)));
            && Pricing.Part(t.total, p).value == SumSessions(t.sessions, p, false)
            && EffectiveUpper(Pricing.Part(t.total, p)) == SumSessions(t.sessions, p, true)
            && (Multiplies(rules) && (forall r :: r in found ==> r.item.counts.NonNegative()) ==>
                  Pricing.Part(t.total, p).value <= EffectiveUpper(Pricing.Part(t.total, p)))
  {
    hide PriceEvent, EffectiveUpper, Pricing.Part, Proper, SumSessions, Multiplies;
    var items := Items(Map(Pricer(rules), found));
    forall i | 0 <= i < |items| ensures AllProper(items[i].1) {
      var u := found[i].item;
      PricedItem(rules, found, i);
      PricesAreProper(rules, u.counts, u.visible, Clock.Prefix(u.at) + "Z");
    }
    FoldAddsUp(items, p);
    if Multiplies(rules) && forall r :: r in found ==> r.item.counts.NonNegative() {
      forall i | 0 <= i < |items| ensures Pricing.Part(items[i].1, p).value <= EffectiveUpper(Pricing.Part(items[i].1, p)) {
        var u := found[i].item;
        PricedItem(rules, found, i);
        PriceBelowUpper(rules, u.counts, u.visible, Clock.Prefix(u.at) + "Z", p);
      }
      FoldBelowUpper(items, p);
    }
  }

  /** In every answer that the cache ever gives, and whatever the prices, the sessions' costs add up to the total in value
      and in upper bound; with input multipliers and counts that are not negative the total is within its upper bound. */
  lemma AnswersAddUp(qs: seq<Request>, ledger: seq<Row>, i: nat, p: Provider)
    requires Table(ledger) && i < |qs| && forall k :: 0 <= k < |qs| ==> qs[k].rows <= ledger
    ensures |ServeAll(qs).1| == |qs|
    ensures var t := ServeAll(qs).1[i];
            && Pricing.Part(t.total, p).value == SumSessions(t.sessions, p, false)
            && EffectiveUpper(Pricing.Part(t.total, p)) == SumSessions(t.sessions, p, true)
            && (qs[i].rules.Some? && Multiplies(qs[i].rules.value) && (forall r :: r in qs[i].rows ==> r.item.counts.NonNegative()) ==>
                  Pricing.Part(t.total, p).value <= EffectiveUpper(Pricing.Part(t.total, p)))
  {
    hide Table, ServeAll, EffectiveUpper, Pricing.Part, SumSessions, Fold, Multiplies, Selected;
    CacheRefinesReference(qs, ledger);
    if qs[i].rules.Some? {
      PricedFold(qs[i].rules.value, Selected(qs[i].rows, qs[i].start, qs[i].end), p);
      SelectedFrom(qs[i].rows, qs[i].start, qs[i].end);
    } else {
      NothingAddsUp(p);
    }
  }

  /* ---- The cache as the program keeps it ---- */

  method SortEvents(events: seq<PricedEvent>) returns (sorted: seq<PricedEvent>)
    ensures sorted == Sort(events)
  {
    sorted := [];
    assert events[..0] == [];
    for i := 0 to |events|
      invariant sorted == Sort(events[..i])
    {
      assert events[..i + 1] == events[..i] + [events[i]];
      SortStep(events[..i], events[i]);
      sorted := Insert(sorted, events[i]);
    }
    assert events[..|events|] == events;
  }

  lemma FoldNext(p: PricedEvent -> bool, events: seq<PricedEvent>, n: nat)
    requires n < |events|
    ensures Fold(Items(Filter(p, events[..n + 1])))
         == var t := Fold(Items(Filter(p, events[..n])));
            if p(events[n]) then Post(t, events[n].item.key, events[n].item.cost) else t
  {
    hide Fold, Post;
    assert events[..n + 1] == events[..n] + [events[n]];
    FilterStep(p, events[..n], events[n]);
    var kept := Filter(p, events[..n]);
    if p(events[n]) {
      assert (kept + [events[n]])[..|kept|] == kept && (kept + [events[n]])[..|kept| + 1] == kept + [events[n]];
      ItemsStep(kept + [events[n]], |kept|);
    } else {
      assert kept + [] == kept;
    }
  }

  class AccountingCache {
    var rules: seq<PriceRule>
    var events: seq<PricedEvent>
    var maxId: int

    function Contents(): Cache
      reads this
    {
      Cache(rules, events, maxId)
    }

    constructor ()
      ensures Contents() == EMPTY
    {
      rules, events, maxId := [], [], 0;
    }

    /** Price the rows above the largest id seen, in id order. */
    method PriceNew(rows: seq<Row>) returns (newest: seq<PricedEvent>)
      ensures newest == Map(Pricer(rules), Filter(Newer(maxId), rows))
    {
      newest := [];
      assert rows[..0] == [];
      for i := 0 to |rows|
        invariant newest == Map(Pricer(rules), Filter(Newer(maxId), rows[..i]))
      {
        assert rows[..i + 1] == rows[..i] + [rows[i]];
        FilterStep(Newer(maxId), rows[..i], rows[i]);
        if rows[i].id > maxId {
          MapStep(Pricer(rules), Filter(Newer(maxId), rows[..i]), rows[i]);
          newest := newest + [Stamped(rows[i].id, rows[i].stamp, Price(rules, rows[i].item))];
        } else {
          assert Filter(Newer(maxId), rows[..i]) + [] == Filter(Newer(maxId), rows[..i]);
        }
      }
      assert rows[..|rows|] == rows;
    }

    /** Fold the cached events of the window, in their order. */
    method FoldWindow(start: Clock.Stamp, end: Clock.Stamp) returns (t: Totals)
      ensures t == Fold(Items(Filter(During(start, end), events)))
    {
      var total, sessions := NO_COSTS, map[];
      ghost var p := During(start, end);
      assert Items(Filter(p, events[..0])) == [];
      for i := 0 to |events|
        invariant Totals(total, sessions) == Fold(Items(Filter(p, events[..i])))
      {
        var e := events[i];
        FoldNext(p, events, i);
        if !Clock.Less(e.item.moment, Clock.UsageBound(start)) && Clock.Less(e.item.moment, Clock.UsageBound(end)) {
          total := AddProviderCosts(total, e.item.cost);
          var session := if e.item.key in sessions then sessions[e.item.key] else NO_COSTS;
          sessions := sessions[e.item.key := AddProviderCosts(session, e.item.cost)];
        }
      }
      assert events[..|events|] == events;
      t := Totals(total, sessions);
    }

    method CachedRangeCosts(q: Request) returns (t: Totals)
      modifies this
      ensures (Contents(), t) == Serve(old(Contents()), q)
    {
      hide Fold, Items, Price, InRange, During, Map, Filter, Sort;
      if q.rules.None? {
        return Totals(NO_COSTS, map[]);
      }
      if |q.rows| > MAX_CACHED_COST_EVENTS || MaxId(q.rows) < maxId {
        t := RangeCosts(q.rules.value, Selected(q.rows, q.start, q.end));
        return;
      }
      if q.rules.value != rules || |q.rows| < |events| {
        rules, events, maxId := q.rules.value, [], 0;
      }
      if MaxId(q.rows) > maxId {
        var newest := PriceNew(q.rows);
        events := SortEvents(events + newest);
        maxId := MaxId(q.rows);
      }
      t := FoldWindow(q.start, q.end);
    }
  }
}
