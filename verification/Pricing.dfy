/** Pricing usage events and adding costs up (pricing.go), over the reals. */
module Pricing {
  import opened Wrappers
  import opened Wire
  import Clock

  datatype CostBreakdown = CostBreakdown(
    provider: string, profile: string, value: real, upper: Option<real>, currency: string, quality: string, verifiedAt: string)
  datatype ProviderCosts = ProviderCosts(api: CostBreakdown, vercel: CostBreakdown, credits: CostBreakdown)

  const NOTHING := CostBreakdown("", "", 0.0, None, "", "", "")
  const NO_COSTS := ProviderCosts(NOTHING, NOTHING, NOTHING)

  datatype PriceRule = PriceRule(
    provider: string, profile: string, model: string, from: string, to: string,
    input: real, cached: real, write: Option<real>, output: real,
    inputMultiplier: real, outputMultiplier: real, threshold: Option<int>, currency: string, verified: string, stale: bool)

  predicate LongContext(r: PriceRule, c: Tokens) {
    r.threshold.Some? && c.input > r.threshold.value
  }

  function InputFactor(r: PriceRule, c: Tokens): real { if LongContext(r, c) then r.inputMultiplier else 1.0 }
  function OutputFactor(r: PriceRule, c: Tokens): real { if LongContext(r, c) then r.outputMultiplier else 1.0 }

  function FreshInput(c: Tokens): int {
    var rest := c.input - c.cached - c.cacheWrite;
    if rest < 0 then 0 else rest
  }

  function CalculateCost(r: PriceRule, provider: string, profile: string, c: Tokens, visible: bool): CostBreakdown {
    var im, om := InputFactor(r, c), OutputFactor(r, c);
    var known := (FreshInput(c) as real * r.input + c.cached as real * r.cached) * im + c.output as real * r.output * om;
    var unknown := r.write.None? || !visible;
    var base := if unknown then known else known + c.cacheWrite as real * r.write.value * im;
    var ceiling := base + c.input as real * (if r.input < 5.0 then 5.0 else r.input) * im;
    CostBreakdown(provider, profile, base / 1_000_000.0,
                  if unknown then Some(ceiling / 1_000_000.0) else None,
                  r.currency,
                  if r.stale then "STALE" else if unknown then "CACHE_WRITE_UNKNOWN" else "EXACT",
                  r.verified)
  }

  predicate Matches(r: PriceRule, provider: string, profile: string, model: string) {
    r.provider == provider && r.profile == profile && r.model == model
  }

  /** From its first second up to, and not including, its last; without an end for good. */
  predicate InForce(r: PriceRule, second: string) {
    !Clock.Less(second, r.from) && (r.to == "" || Clock.Less(second, r.to))
  }

  /** The first rule of the model that is in force at `second`, newest first; no cost when there is none. */
  function CostFromRules(rules: seq<PriceRule>, provider: string, profile: string, model: string,
                         c: Tokens, visible: bool, second: string): CostBreakdown
  {
    if rules == [] then NOTHING
    else
      var r := rules[0];
      if Matches(r, provider, profile, model) && InForce(r, second) then CalculateCost(r, provider, profile, c, visible)
      else CostFromRules(rules[1..], provider, profile, model, c, visible, second)
  }

  function PriceEvent(rules: seq<PriceRule>, c: Tokens, visible: bool, second: string): ProviderCosts {
    ProviderCosts(
      CostFromRules(rules, "openai", "API", "gpt-5.6-sol", c, visible, second),
      CostFromRules(rules, "vercel", "AI Gateway public", "openai/gpt-5.6-sol", c, visible, second),
      CostFromRules(rules, "codex", "Plus/Pro Current", "gpt-5.6-sol", c, visible, second))
  }

  /** Adding one cost to a running one; an empty running cost is replaced outright. */
  function AddCost(dst: CostBreakdown, src: CostBreakdown): CostBreakdown {
    if dst.provider == "" then src
    else
      dst.(value := dst.value + src.value,
           upper := if dst.upper.Some? || src.upper.Some? then Some(EffectiveUpper(dst) + EffectiveUpper(src)) else None,
           quality := if src.quality != "EXACT" then src.quality else dst.quality,
           verifiedAt := if Clock.Less(dst.verifiedAt, src.verifiedAt) then src.verifiedAt else dst.verifiedAt)
  }

  /** The upper bound, or the value where the value is certain. */
  function EffectiveUpper(c: CostBreakdown): real {
    if c.upper.Some? then c.upper.value else c.value
  }

  function AddProviderCosts(a: ProviderCosts, b: ProviderCosts): ProviderCosts {
    ProviderCosts(AddCost(a.api, b.api), AddCost(a.vercel, b.vercel), AddCost(a.credits, b.credits))
  }

  datatype Provider = Api | Vercel | Credits

  function Part(c: ProviderCosts, p: Provider): CostBreakdown {
    match p case Api => c.api case Vercel => c.vercel case Credits => c.credits
  }

  /* ---- Folding costs by session ---- */

  type Key = (string, string)  // host, conversation

  datatype Totals = Totals(total: ProviderCosts, sessions: map<Key, ProviderCosts>)

  function Sessions(t: Totals, k: Key): ProviderCosts { if k in t.sessions then t.sessions[k] else NO_COSTS }

  function Post(t: Totals, key: Key, cost: ProviderCosts): Totals {
    Totals(AddProviderCosts(t.total, cost), t.sessions[key := AddProviderCosts(Sessions(t, key), cost)])
  }

  function Fold(items: seq<(Key, ProviderCosts)>): Totals {
    if items == [] then Totals(NO_COSTS, map[])
    else Post(Fold(items[..|items| - 1]), items[|items| - 1].0, items[|items| - 1].1)
  }

  /* ---- Which rule prices an event ---- */

  /** Validity compares text, and means time: an event is priced by a rule exactly when its second lies in the rule's
      half-open period. */
  lemma InForceIsInterval(r: PriceRule, s: Clock.Stamp, from: Clock.Stamp, to: Option<Clock.Stamp>)
    requires Clock.Valid(s) && Clock.Valid(from) && from.nanos == 0
    requires r.from == Clock.Prefix(from) + "Z"
    requires to.Some? ==> Clock.Valid(to.value) && to.value.nanos == 0 && r.to == Clock.Prefix(to.value) + "Z"
    requires to.None? ==> r.to == ""
    ensures InForce(r, Clock.Prefix(s) + "Z") <==>
              && Clock.InstantOf(from) <= Clock.InstantOf(s)
              && (to.Some? ==> Clock.InstantOf(s) < Clock.InstantOf(to.value))
  {
    SecondOrder(s, from);
    if to.Some? {
      SecondOrder(s, to.value);
    }
  }

  /** Against a whole second, an instant compares like the second it is in. */
  lemma SecondOrder(s: Clock.Stamp, whole: Clock.Stamp)
    requires Clock.Valid(s) && Clock.Valid(whole) && whole.nanos == 0
    ensures Clock.Less(Clock.Prefix(s) + "Z", Clock.Prefix(whole) + "Z") <==> Clock.InstantOf(s) < Clock.InstantOf(whole)
  {
    hide Clock.Prefix, Clock.InstantOf, Clock.Less;
    Clock.PrefixOrder(s, whole);
    Clock.InstantOrder(s, whole);
    Clock.LessPrefix(Clock.Prefix(s), Clock.Prefix(whole), "Z", "Z");
    Clock.LessTotal("Z", "Z");
  }

  /** The rules are tried in the order given, newest first: an event takes the price of the first one that matches and
      is in force, and no price when there is none. */
  lemma {:induction false} FirstRuleInForce(rules: seq<PriceRule>, provider: string, profile: string, model: string,
                                            c: Tokens, visible: bool, second: string, k: nat)
    requires k <= |rules|
    requires forall i :: 0 <= i < k ==> !(Matches(rules[i], provider, profile, model) && InForce(rules[i], second))
    requires k < |rules| ==> Matches(rules[k], provider, profile, model) && InForce(rules[k], second)
    ensures CostFromRules(rules, provider, profile, model, c, visible, second)
         == if k < |rules| then CalculateCost(rules[k], provider, profile, c, visible) else NOTHING
  {
    hide CalculateCost, InForce, Matches;
    if rules != [] && k != 0 {
      FirstRuleInForce(rules[1..], provider, profile, model, c, visible, second, k - 1);
    }
  }

  /* ---- Costs add up ---- */

  /** A cost without a provider is the absence of a cost. */
  predicate Proper(c: CostBreakdown) {
    c.provider == "" ==> c == NOTHING
  }

  predicate AllProper(c: ProviderCosts) { Proper(c.api) && Proper(c.vercel) && Proper(c.credits) }

  lemma {:induction false} RulesArePropers(rules: seq<PriceRule>, provider: string, profile: string, model: string,
                                           c: Tokens, visible: bool, second: string)
    requires provider != ""
    ensures Proper(CostFromRules(rules, provider, profile, model, c, visible, second))
  {
    if rules != [] {
      RulesArePropers(rules[1..], provider, profile, model, c, visible, second);
    }
  }

  lemma PricesAreProper(rules: seq<PriceRule>, c: Tokens, visible: bool, second: string)
    ensures AllProper(PriceEvent(rules, c, visible, second))
  {
    RulesArePropers(rules, "openai", "API", "gpt-5.6-sol", c, visible, second);
    RulesArePropers(rules, "vercel", "AI Gateway public", "openai/gpt-5.6-sol", c, visible, second);
    RulesArePropers(rules, "codex", "Plus/Pro Current", "gpt-5.6-sol", c, visible, second);
  }

  /** Order-sensitive as it is in its labels, adding is plain addition of values and of effective upper bounds. */
  lemma AddCostAdds(dst: CostBreakdown, src: CostBreakdown)
    requires Proper(dst) && Proper(src)
    ensures Proper(AddCost(dst, src))
    ensures AddCost(dst, src).value == dst.value + src.value
    ensures EffectiveUpper(AddCost(dst, src)) == EffectiveUpper(dst) + EffectiveUpper(src)
  {
  }

  function SumValue(items: seq<(Key, ProviderCosts)>, p: Provider): real {
    if items == [] then 0.0 else SumValue(items[..|items| - 1], p) + Part(items[|items| - 1].1, p).value
  }

  function SumUpper(items: seq<(Key, ProviderCosts)>, p: Provider): real {
    if items == [] then 0.0 else SumUpper(items[..|items| - 1], p) + EffectiveUpper(Part(items[|items| - 1].1, p))
  }

  ghost function Amount(c: ProviderCosts, p: Provider, upper: bool): real {
    if upper then EffectiveUpper(Part(c, p)) else Part(c, p).value
  }

  ghost function SumSessions(m: map<Key, ProviderCosts>, p: Provider, upper: bool): real
    decreases |m|
  {
    if m == map[] then 0.0
    else
      var k :| k in m;
      Amount(m[k], p, upper) + SumSessions(m - {k}, p, upper)
  }

  /** The sum over a map does not depend on which key is taken out first. */
  lemma {:induction false} SumSessionsWithout(m: map<Key, ProviderCosts>, k: Key, p: Provider, upper: bool)
    requires k in m
    ensures SumSessions(m, p, upper) == Amount(m[k], p, upper) + SumSessions(m - {k}, p, upper)
    decreases |m|
  {
    var first :| first in m && SumSessions(m, p, upper) == Amount(m[first], p, upper) + SumSessions(m - {first}, p, upper);
    if first != k {
      SumSessionsWithout(m - {first}, k, p, upper);
      SumSessionsWithout(m - {k}, first, p, upper);
      assert m - {first} - {k} == m - {k} - {first};
    }
  }

  lemma SumSessionsPost(t: Totals, key: Key, cost: ProviderCosts, p: Provider, upper: bool)
    requires AllProper(cost) && AllProper(Sessions(t, key))
    ensures SumSessions(Post(t, key, cost).sessions, p, upper) == SumSessions(t.sessions, p, upper) + Amount(cost, p, upper)
  {
    var after := Post(t, key, cost).sessions;
    AddCostAdds(Part(Sessions(t, key), p), Part(cost, p));
    SumSessionsWithout(after, key, p, upper);
    if key in t.sessions {
      SumSessionsWithout(t.sessions, key, p, upper);
      assert after - {key} == t.sessions - {key};
    } else {
      assert after - {key} == t.sessions;
    }
  }

  lemma NothingAddsUp(p: Provider)
    ensures AllProper(NO_COSTS) && Part(NO_COSTS, p).value == 0.0 == EffectiveUpper(Part(NO_COSTS, p))
    ensures SumSessions(map[], p, false) == 0.0 == SumSessions(map[], p, true)
  {
  }

  /** For every provider the total is the sum of the priced events, and the per-session costs partition it — in
      value and in effective upper bound. */
  lemma {:induction false} FoldAddsUp(items: seq<(Key, ProviderCosts)>, p: Provider)
    requires forall i :: 0 <= i < |items| ==> AllProper(items[i].1)
    ensures var t := Fold(items);
            && AllProper(t.total) && (forall k :: k in t.sessions ==> AllProper(t.sessions[k]))
            && Part(t.total, p).value == SumValue(items, p) == SumSessions(t.sessions, p, false)
            && EffectiveUpper(Part(t.total, p)) == SumUpper(items, p) == SumSessions(t.sessions, p, true)
  {
    hide AddCost, EffectiveUpper, Proper, SumSessions;
    if items == [] {
      NothingAddsUp(p);
    } else {
      var n := |items| - 1;
      FoldAddsUp(items[..n], p);
      var t := Fold(items[..n]);
      assert AllProper(items[n].1);
      AddProper(t.total, items[n].1);
      AddProper(Sessions(t, items[n].0), items[n].1);
      AddCostAdds(Part(t.total, p), Part(items[n].1, p));
      SumSessionsPost(t, items[n].0, items[n].1, p, false);
      SumSessionsPost(t, items[n].0, items[n].1, p, true);
    }
  }

  lemma AddProper(a: ProviderCosts, b: ProviderCosts)
    requires AllProper(a) && AllProper(b)
    ensures AllProper(AddProviderCosts(a, b))
  {
    AddCostAdds(a.api, b.api);
    AddCostAdds(a.vercel, b.vercel);
    AddCostAdds(a.credits, b.credits);
  }

  /* ---- The label, which does depend on the order ---- */

  /** No event before `k` has a price, and all from `k` on are exact. */
  ghost predicate ExactFrom(items: seq<(Key, ProviderCosts)>, p: Provider, k: nat) {
    && k < |items|
    && (forall i :: 0 <= i < k ==> Part(items[i].1, p) == NOTHING)
    && Part(items[k].1, p).provider != ""
    && (forall i :: k <= i < |items| ==> Part(items[i].1, p).quality == "EXACT")
  }

  ghost predicate ExactThroughout(items: seq<(Key, ProviderCosts)>, p: Provider) {
    exists k: nat :: ExactFrom(items, p, k)
  }

  ghost predicate Unpriced(items: seq<(Key, ProviderCosts)>, p: Provider) {
    forall i :: 0 <= i < |items| ==> Part(items[i].1, p) == NOTHING
  }

  /** Once there is a priced event the total is labelled exact just as long as everything added is exact. But events
      without a price that come before the first priced one leave no mark. */
  lemma {:induction false} ExactLabel(items: seq<(Key, ProviderCosts)>, p: Provider)
    requires forall i :: 0 <= i < |items| ==> Proper(Part(items[i].1, p))
    ensures Proper(Part(Fold(items).total, p))
    ensures Part(Fold(items).total, p).quality == "EXACT" <==> ExactThroughout(items, p)
    ensures Part(Fold(items).total, p).provider == "" <==> Unpriced(items, p)
  {
    hide AddCost, Proper, ExactThroughout;
    if items == [] {
      NothingLabelled(p);
    } else {
      var n := |items| - 1;
      var before, last := items[..n], Part(items[n].1, p);
      ExactLabel(before, p);
      assert items == before + [items[n]];
      assert Part(Fold(items).total, p) == AddCost(Part(Fold(before).total, p), last);
      AddLabel(Part(Fold(before).total, p), last);
      if Unpriced(before, p) {
        ExactStart(before, items[n], p);
      } else {
        ExactStep(before, items[n], p);
      }
    }
  }

  lemma NothingLabelled(p: Provider)
    ensures Proper(Part(NO_COSTS, p)) && Part(NO_COSTS, p).quality != "EXACT" && !ExactThroughout([], p)
  {
  }

  lemma AddLabel(dst: CostBreakdown, src: CostBreakdown)
    requires Proper(dst) && Proper(src)
    ensures Proper(AddCost(dst, src))
    ensures AddCost(dst, src).provider == "" <==> dst.provider == "" && src == NOTHING
    ensures AddCost(dst, src).quality == "EXACT" <==>
              src.quality == "EXACT" && (dst.provider == "" || dst.quality == "EXACT")
  {
  }

  lemma ExactStart(before: seq<(Key, ProviderCosts)>, item: (Key, ProviderCosts), p: Provider)
    requires Unpriced(before, p) && Proper(Part(item.1, p))
    ensures ExactThroughout(before + [item], p) <==> Part(item.1, p).quality == "EXACT"
    ensures !ExactThroughout(before, p)
  {
    var items := before + [item];
    assert items[|before|] == item && forall i :: 0 <= i < |before| ==> items[i] == before[i];
    assert Part(item.1, p).quality == "EXACT" ==> ExactFrom(items, p, |before|);
  }

  lemma ExactStep(before: seq<(Key, ProviderCosts)>, item: (Key, ProviderCosts), p: Provider)
    requires !Unpriced(before, p)
    ensures ExactThroughout(before + [item], p) <==> ExactThroughout(before, p) && Part(item.1, p).quality == "EXACT"
  {
    var items := before + [item];
    assert items[|before|] == item && forall i :: 0 <= i < |before| ==> items[i] == before[i];
    if ExactThroughout(items, p) {
      var k: nat :| ExactFrom(items, p, k);
      assert ExactFrom(before, p, k);
    }
    if ExactThroughout(before, p) && Part(item.1, p).quality == "EXACT" {
      var k: nat :| ExactFrom(before, p, k);
      assert ExactFrom(items, p, k);
    }
  }

  /** The total of one provider is described by the first priced event and what follows it: its names and currency are that
      event's, its label is the last one that is not exact, if any, and it was verified when the latest of them was. Events
      without a price that come after the first priced one make the label empty; those before it leave no mark. */
  lemma {:induction false} TotalDescribes(items: seq<(Key, ProviderCosts)>, p: Provider, k: nat, i: nat)
    requires forall j :: 0 <= j < |items| ==> Proper(Part(items[j].1, p))
    requires k <= i < |items| && (forall j :: 0 <= j < k ==> Part(items[j].1, p) == NOTHING) && Part(items[k].1, p).provider != ""
    requires (i == k || Part(items[i].1, p).quality != "EXACT")
             && forall j :: i < j < |items| ==> Part(items[j].1, p).quality == "EXACT"
    ensures var total, first := Part(Fold(items).total, p), Part(items[k].1, p);
            && (total.provider, total.profile, total.currency) == (first.provider, first.profile, first.currency)
            && total.quality == Part(items[i].1, p).quality
    decreases |items|
  {
    hide AddCost, Fold, Proper;
    var n := |items| - 1;
    var before := items[..n];
    FoldSnoc(before, items[n], p);
    assert before + [items[n]] == items;
    AddDescribes(Part(Fold(before).total, p), Part(items[n].1, p));
    if k == n {
      UnpricedTotal(before, p);
    } else if i < n {
      TotalDescribes(before, p, k, i);
    } else {
      var m := LastLabelled(before, p, k);
      TotalDescribes(before, p, k, m);
    }
  }

  /** The last event from the first priced one on that is not exact; the priced one itself if there is no such. */
  lemma {:induction false} LastLabelled(items: seq<(Key, ProviderCosts)>, p: Provider, k: nat) returns (i: nat)
    requires k < |items|
    ensures k <= i < |items| && (i == k || Part(items[i].1, p).quality != "EXACT")
    ensures forall j :: i < j < |items| ==> Part(items[j].1, p).quality == "EXACT"
    decreases |items|
  {
    var n := |items| - 1;
    if n == k || Part(items[n].1, p).quality != "EXACT" {
      i := n;
    } else {
      i := LastLabelled(items[..n], p, k);
    }
  }

  lemma AddDescribes(dst: CostBreakdown, src: CostBreakdown)
    ensures var sum := AddCost(dst, src);
            if dst.provider == "" then sum == src
            else (sum.provider, sum.profile, sum.currency) == (dst.provider, dst.profile, dst.currency)
                 && sum.quality == if src.quality == "EXACT" then dst.quality else src.quality
  {
  }

  lemma FoldSnoc(before: seq<(Key, ProviderCosts)>, item: (Key, ProviderCosts), p: Provider)
    ensures Part(Fold(before + [item]).total, p) == AddCost(Part(Fold(before).total, p), Part(item.1, p))
  {
    hide AddCost;
    assert (before + [item])[..|before|] == before;
  }

  lemma {:induction false} UnpricedTotal(items: seq<(Key, ProviderCosts)>, p: Provider)
    requires Unpriced(items, p)
    ensures Part(Fold(items).total, p) == NOTHING
  {
    if items != [] {
      var n := |items| - 1;
      UnpricedTotal(items[..n], p);
      FoldSnoc(items[..n], items[n], p);
      assert items[..n] + [items[n]] == items;
    }
  }

  /** No price in the total was verified later than it says, and one of them was verified then. */
  lemma {:induction false} TotalVerified(items: seq<(Key, ProviderCosts)>, p: Provider)
    requires forall j :: 0 <= j < |items| ==> Proper(Part(items[j].1, p))
    ensures var at := Part(Fold(items).total, p).verifiedAt;
            && (forall j :: 0 <= j < |items| ==> !Clock.Less(at, Part(items[j].1, p).verifiedAt))
            && (Unpriced(items, p) || exists j :: 0 <= j < |items| && Part(items[j].1, p).verifiedAt == at)
  {
    hide Fold, Clock.Less;
    if items == [] {
    } else {
      var n := |items| - 1;
      var before := items[..n];
      TotalVerified(before, p);
      FoldSnoc(before, items[n], p);
      assert before + [items[n]] == items;
      var sum, last := Part(Fold(before).total, p).verifiedAt, Part(items[n].1, p).verifiedAt;
      Clock.LessTotal(sum, last);
      if Unpriced(before, p) {
        UnpricedTotal(before, p);
        NothingBelowEmpty(last);
        Clock.LessTotal(last, last);
      } else {
        PricedTotal(before, p);
        Clock.LessTotal(last, last);
        forall j | 0 <= j < n
          ensures !Clock.Less(sum, Part(items[j].1, p).verifiedAt)
          ensures Clock.Less(sum, last) ==> !Clock.Less(last, Part(items[j].1, p).verifiedAt)
        {
          assert items[j] == before[j];
          if Clock.Less(sum, last) {
            LessOrNot(sum, last, Part(items[j].1, p).verifiedAt);
          }
        }
        var j :| 0 <= j < n && Part(before[j].1, p).verifiedAt == sum;
        assert Part(items[j].1, p).verifiedAt == sum;
      }
    }
  }

  lemma NothingBelowEmpty(text: string)
    ensures !Clock.Less(text, "")
  {
  }

  lemma LessOrNot(a: string, b: string, c: string)
    requires Clock.Less(a, b) && !Clock.Less(a, c)
    ensures !Clock.Less(b, c)
  {
    if Clock.Less(b, c) {
      Clock.LessTransitive(a, b, c);
    }
  }

  lemma {:induction false} PricedTotal(items: seq<(Key, ProviderCosts)>, p: Provider)
    requires !Unpriced(items, p) && forall j :: 0 <= j < |items| ==> Proper(Part(items[j].1, p))
    ensures Part(Fold(items).total, p).provider != ""
  {
    ExactLabel(items, p);
  }

  function OfSession(items: seq<(Key, ProviderCosts)>, key: Key): seq<(Key, ProviderCosts)> {
    if items == [] then []
    else OfSession(items[..|items| - 1], key) + if items[|items| - 1].0 == key then [items[|items| - 1]] else []
  }

  /** What is said of the total holds of every session too: a session is the total of its own events. */
  lemma {:induction false} SessionIsOwnTotal(items: seq<(Key, ProviderCosts)>, key: Key)
    ensures key in Fold(items).sessions <==> OfSession(items, key) != []
    ensures Sessions(Fold(items), key) == Fold(OfSession(items, key)).total
  {
    hide AddProviderCosts;
    if items != [] {
      var n := |items| - 1;
      SessionIsOwnTotal(items[..n], key);
      var own := OfSession(items[..n], key);
      assert own + [] == own && (own + [items[n]])[..|own|] == own;
    }
  }

  /** What a provider's price of an event is looked up under. */
  function NameOf(p: Provider): (string, string, string) {
    match p
    case Api => ("openai", "API", "gpt-5.6-sol")
    case Vercel => ("vercel", "AI Gateway public", "openai/gpt-5.6-sol")
    case Credits => ("codex", "Plus/Pro Current", "gpt-5.6-sol")
  }

  /** Each provider's part is the bill under that provider's own first rule for the model that is in force, and nothing if there
      is no such rule. */
  lemma {:induction false} PartIsBilled(rules: seq<PriceRule>, c: Tokens, visible: bool, second: string, p: Provider, k: nat)
    requires k <= |rules|
    requires var applies := (r: PriceRule) => (r.provider, r.profile, r.model) == NameOf(p) && InForce(r, second);
             (forall i :: 0 <= i < k ==> !applies(rules[i])) && (k < |rules| ==> applies(rules[k]))
    ensures var cost := Part(PriceEvent(rules, c, visible, second), p);
            if k < |rules| then (cost.provider, cost.profile) == (NameOf(p).0, NameOf(p).1)
                                && cost.value == Billed(Bill(rules[k], c, visible)) / 1_000_000.0
            else cost == NOTHING
  {
    hide Billed, Bill, InForce;
    var name := NameOf(p);
    FirstRuleInForce(rules, name.0, name.1, name.2, c, visible, second, k);
    if k < |rules| {
      CostIsBill(rules[k], name.0, name.1, c, visible);
    }
  }

  /* ---- What one event costs ---- */

  // A line of a bill: so many tokens, at a rate per million, times a factor.
  datatype Line = Line(count: int, rate: real, factor: real)

  function Billed(lines: seq<Line>): real {
    if lines == [] then 0.0
    else
      var l := lines[|lines| - 1];
      Billed(lines[..|lines| - 1]) + l.count as real * l.rate * l.factor
  }

  lemma BilledSnoc(lines: seq<Line>, l: Line)
    ensures Billed(lines + [l]) == Billed(lines) + l.count as real * l.rate * l.factor
  {
    assert (lines + [l])[..|lines|] == lines;
  }

  /** The bill of an event: input that was neither read from the cache nor written to it, cached input, output, and cache
      writes if there is a rate for them and the event shows them; past the threshold the input side and the output
      side each carry their multiplier. */
  function Bill(r: PriceRule, c: Tokens, visible: bool): seq<Line> {
    var long := r.threshold.Some? && r.threshold.value < c.input;
    var inputFactor, outputFactor := if long then r.inputMultiplier else 1.0, if long then r.outputMultiplier else 1.0;
    var uncached := if c.cached + c.cacheWrite <= c.input then c.input - (c.cached + c.cacheWrite) else 0;
    [Line(uncached, r.input, inputFactor), Line(c.cached, r.cached, inputFactor), Line(c.output, r.output, outputFactor)] +
    if visible && r.write.Some? then [Line(c.cacheWrite, r.write.value, inputFactor)] else []
  }

  lemma {:induction false} BilledLines(a: Line, b: Line, d: Line, rest: seq<Line>)
    requires |rest| <= 1
    ensures Billed([a, b, d] + rest) == a.count as real * a.rate * a.factor + b.count as real * b.rate * b.factor
                                      + d.count as real * d.rate * d.factor
                                      + if rest == [] then 0.0 else rest[0].count as real * rest[0].rate * rest[0].factor
  {
    BilledSnoc([], a);
    BilledSnoc([a], b);
    BilledSnoc([a, b], d);
    assert [] + [a] == [a] && [a] + [b] == [a, b] && [a, b] + [d] == [a, b, d];
    if rest != [] {
      BilledSnoc([a, b, d], rest[0]);
      assert [rest[0]] == rest;
    } else {
      assert [a, b, d] + rest == [a, b, d];
    }
  }

  lemma Distributes(x: real, y: real, f: real)
    ensures (x + y) * f == x * f + y * f
  {
  }

  /** Whether cache writes are shown or not, an event costs what its bill comes to. */
  lemma CostIsBill(r: PriceRule, provider: string, profile: string, c: Tokens, visible: bool)
    ensures CalculateCost(r, provider, profile, c, visible).value == Billed(Bill(r, c, visible)) / 1_000_000.0
  {
    hide Billed;
    var lines := Bill(r, c, visible);
    BilledLines(lines[0], lines[1], lines[2], lines[3..]);
    assert lines == [lines[0], lines[1], lines[2]] + lines[3..];
    Distributes(FreshInput(c) as real * r.input, c.cached as real * r.cached, InputFactor(r, c));
  }

  /** With writes that are not shown it costs what it would under a price without a rate for them. */
  lemma InvisibleIsUnpriced(r: PriceRule, provider: string, profile: string, c: Tokens)
    ensures CalculateCost(r, provider, profile, c, false).value == CalculateCost(r.(write := None), provider, profile, c, true).value
  {
    CostIsBill(r, provider, profile, c, false);
    CostIsBill(r.(write := None), provider, profile, c, true);
    hide CalculateCost, Billed;
    assert Bill(r, c, false) == Bill(r.(write := None), c, true);
  }

  /** There is an upper bound exactly if the writes are not shown or have no rate: then all input might have been written, at
      the input rate or 5.0, whichever is more. */
  lemma UpperIsAllWritten(r: PriceRule, provider: string, profile: string, c: Tokens, visible: bool)
    ensures var cost := CalculateCost(r, provider, profile, c, visible);
            var factor := if r.threshold.Some? && r.threshold.value < c.input then r.inputMultiplier else 1.0;
            if visible && r.write.Some? then cost.upper == None
            else
              var rate := if 5.0 < r.input then r.input else 5.0;
              cost.upper.Some? && cost.upper.value == cost.value + (c.input as real * rate * factor) / 1_000_000.0
  {
    var im := InputFactor(r, c);
    var known := (FreshInput(c) as real * r.input + c.cached as real * r.cached) * im + c.output as real * r.output * OutputFactor(r, c);
    PerMillion(known, c.input as real * (if r.input < 5.0 then 5.0 else r.input) * im);
    assert (if r.input < 5.0 then 5.0 else r.input) == if 5.0 < r.input then r.input else 5.0;
  }

  lemma PerMillion(x: real, y: real)
    ensures (x + y) / 1_000_000.0 == x / 1_000_000.0 + y / 1_000_000.0
  {
  }

  /** A stale price is labelled so whatever else is known; otherwise the cost is exact if and only if it has no upper bound. */
  lemma LabelSaysWhatIsKnown(r: PriceRule, provider: string, profile: string, c: Tokens, visible: bool)
    ensures var cost := CalculateCost(r, provider, profile, c, visible);
            && cost.quality in {"STALE", "EXACT", "CACHE_WRITE_UNKNOWN"}
            && (cost.quality == "STALE" <==> r.stale)
            && (cost.quality == "EXACT" <==> !r.stale && visible && r.write.Some?)
            && (!r.stale ==> (cost.quality == "EXACT" <==> cost.upper.None?))
            && cost.provider == provider && cost.profile == profile && cost.currency == r.currency && cost.verifiedAt == r.verified
  {
  }

  /* ---- Upper bounds are bounds ---- */

  lemma TimesMonotone(x: real, y: real, a: real, b: real)
    requires 0.0 <= x <= y && 0.0 <= a <= b
    ensures 0.0 <= x * a <= y * b
  {
    assert x * a <= y * a;
    assert y * a <= y * b;
  }

  /** A priced event's upper bound is at least its value, whatever the rates: what the bound adds is priced at no less
      than 5.0, so only the multiplier of the input side has to be non-negative. */
  lemma UpperIsAbove(r: PriceRule, provider: string, profile: string, c: Tokens, visible: bool)
    requires 0.0 <= r.inputMultiplier && c.NonNegative()
    ensures CalculateCost(r, provider, profile, c, visible).value <= EffectiveUpper(CalculateCost(r, provider, profile, c, visible))
  {
    var rate := if r.input < 5.0 then 5.0 else r.input;
    TimesMonotone(0.0, c.input as real, 0.0, rate);
    TimesMonotone(0.0, c.input as real * rate, 0.0, InputFactor(r, c));
  }

  lemma {:induction false} UpperFromRules(rules: seq<PriceRule>, provider: string, profile: string, model: string,
                                          c: Tokens, visible: bool, second: string)
    requires c.NonNegative() && forall i :: 0 <= i < |rules| ==> 0.0 <= rules[i].inputMultiplier
    ensures var cost := CostFromRules(rules, provider, profile, model, c, visible, second);
            cost.value <= EffectiveUpper(cost)
  {
    if rules != [] {
      UpperIsAbove(rules[0], provider, profile, c, visible);
      UpperFromRules(rules[1..], provider, profile, model, c, visible, second);
    }
  }

  /** The folded total never exceeds its own upper bound, nor does any session's. */
  lemma {:induction false} FoldBelowUpper(items: seq<(Key, ProviderCosts)>, p: Provider)
    requires forall i :: 0 <= i < |items| ==>
               AllProper(items[i].1) && Part(items[i].1, p).value <= EffectiveUpper(Part(items[i].1, p))
    ensures Part(Fold(items).total, p).value <= EffectiveUpper(Part(Fold(items).total, p))
    ensures forall k :: k in Fold(items).sessions ==>
              Part(Fold(items).sessions[k], p).value <= EffectiveUpper(Part(Fold(items).sessions[k], p))
  {
    if items != [] {
      var n := |items| - 1;
      FoldBelowUpper(items[..n], p);
      FoldAddsUp(items[..n], p);
      var t := Fold(items[..n]);
      AddCostAdds(Part(t.total, p), Part(items[n].1, p));
      AddCostAdds(Part(Sessions(t, items[n].0), p), Part(items[n].1, p));
    }
  }

  /* ---- Pricing event by event against pricing once ---- */

  /** The part of a reading's cost that scales with the input factor, and the part that scales with the output's. */
  function InputCost(r: PriceRule, c: Tokens): real {
    FreshInput(c) as real * r.input + c.cached as real * r.cached +
      (if r.write.Some? then c.cacheWrite as real * r.write.value else 0.0)
  }

  function OutputCost(r: PriceRule, c: Tokens): real { c.output as real * r.output }

  /** Rates that charge, and multipliers that raise the price. */
  predicate SaneRates(r: PriceRule) {
    && 0.0 <= r.input && 0.0 <= r.cached && 0.0 <= r.output && (r.write.Some? ==> 0.0 <= r.write.value)
    && 1.0 <= r.inputMultiplier && 1.0 <= r.outputMultiplier
  }

  predicate Disjoint(c: Tokens) {
    c.NonNegative() && c.cached + c.cacheWrite <= c.input
  }

  lemma CostSplits(r: PriceRule, provider: string, profile: string, c: Tokens)
    ensures CalculateCost(r, provider, profile, c, true).value
         == (InputCost(r, c) * InputFactor(r, c) + OutputCost(r, c) * OutputFactor(r, c)) / 1_000_000.0
  {
    var im := InputFactor(r, c);
    var known := FreshInput(c) as real * r.input + c.cached as real * r.cached;
    if r.write.Some? {
      var w := c.cacheWrite as real * r.write.value;
      assert (known + w) * im == known * im + w * im;
    }
  }

  lemma PartsAdd(r: PriceRule, a: Tokens, b: Tokens)
    requires SaneRates(r) && Disjoint(a) && Disjoint(b)
    ensures InputCost(r, a.Plus(b)) == InputCost(r, a) + InputCost(r, b)
    ensures OutputCost(r, a.Plus(b)) == OutputCost(r, a) + OutputCost(r, b)
    ensures 0.0 <= InputCost(r, a) && 0.0 <= OutputCost(r, a)
  {
    var fa, fb := FreshInput(a), FreshInput(b);
    assert FreshInput(a.Plus(b)) == fa + fb;
    assert (fa + fb) as real * r.input == fa as real * r.input + fb as real * r.input;
    TimesMonotone(0.0, fa as real, 0.0, r.input);
    TimesMonotone(0.0, a.cached as real, 0.0, r.cached);
    TimesMonotone(0.0, a.output as real, 0.0, r.output);
    if r.write.Some? {
      TimesMonotone(0.0, a.cacheWrite as real, 0.0, r.write.value);
    }
  }

  lemma TwoEvents(r: PriceRule, provider: string, profile: string, a: Tokens, b: Tokens)
    requires SaneRates(r) && Disjoint(a) && Disjoint(b)
    ensures CalculateCost(r, provider, profile, a, true).value + CalculateCost(r, provider, profile, b, true).value
         <= CalculateCost(r, provider, profile, a.Plus(b), true).value
  {
    hide CalculateCost, InputCost, OutputCost, InputFactor, OutputFactor;
    var c := a.Plus(b);
    CostSplits(r, provider, profile, a);
    CostSplits(r, provider, profile, b);
    CostSplits(r, provider, profile, c);
    PartsAdd(r, a, b);
    PartsAdd(r, b, a);
    FactorsGrow(r, a, b);
    FactorsGrow(r, b, a);
    JointFactor(InputCost(r, a), InputCost(r, b), InputFactor(r, a), InputFactor(r, b), InputFactor(r, c));
    JointFactor(OutputCost(r, a), OutputCost(r, b), OutputFactor(r, a), OutputFactor(r, b), OutputFactor(r, c));
  }

  lemma FactorsGrow(r: PriceRule, a: Tokens, b: Tokens)
    requires SaneRates(r) && a.NonNegative() && b.NonNegative()
    ensures a.Plus(b) == b.Plus(a)
    ensures 0.0 <= InputFactor(r, a) <= InputFactor(r, a.Plus(b))
    ensures 0.0 <= OutputFactor(r, a) <= OutputFactor(r, a.Plus(b))
  {
  }

  lemma JointFactor(x: real, y: real, f: real, g: real, h: real)
    requires 0.0 <= x && 0.0 <= y && 0.0 <= f <= h && 0.0 <= g <= h
    ensures x * f + y * g <= (x + y) * h
  {
    TimesMonotone(x, x, f, h);
    TimesMonotone(y, y, g, h);
    assert (x + y) * h == x * h + y * h;
  }

  function SumTokens(cs: seq<Tokens>): Tokens {
    if cs == [] then ZERO else SumTokens(cs[..|cs| - 1]).Plus(cs[|cs| - 1])
  }

  function SumCosts(r: PriceRule, provider: string, profile: string, cs: seq<Tokens>, visible: bool): real {
    if cs == [] then 0.0
    else SumCosts(r, provider, profile, cs[..|cs| - 1], visible) + CalculateCost(r, provider, profile, cs[|cs| - 1], visible).value
  }

  lemma NoTokensCostNothing(r: PriceRule, provider: string, profile: string)
    ensures CalculateCost(r, provider, profile, ZERO, true).value == 0.0
  {
    CostSplits(r, provider, profile, ZERO);
    assert InputCost(r, ZERO) == 0.0 && OutputCost(r, ZERO) == 0.0;
  }

  lemma {:induction false} SumIsDisjoint(cs: seq<Tokens>)
    requires forall i :: 0 <= i < |cs| ==> Disjoint(cs[i])
    ensures Disjoint(SumTokens(cs))
  {
    if cs != [] {
      SumIsDisjoint(cs[..|cs| - 1]);
    }
  }

  lemma {:induction false} ShownNeverDearer(r: PriceRule, provider: string, profile: string, cs: seq<Tokens>)
    requires SaneRates(r) && forall i :: 0 <= i < |cs| ==> Disjoint(cs[i])
    ensures SumCosts(r, provider, profile, cs, true) <= CalculateCost(r, provider, profile, SumTokens(cs), true).value
  {
    if cs == [] {
      NoTokensCostNothing(r, provider, profile);
    } else {
      var n := |cs| - 1;
      ShownNeverDearer(r, provider, profile, cs[..n]);
      SumIsDisjoint(cs[..n]);
      TwoEvents(r, provider, profile, SumTokens(cs[..n]), cs[n]);
    }
  }

  lemma {:induction false} HiddenCosts(r: PriceRule, provider: string, profile: string, cs: seq<Tokens>)
    ensures SumCosts(r, provider, profile, cs, false) == SumCosts(r.(write := None), provider, profile, cs, true)
  {
    hide CalculateCost;
    if cs != [] {
      HiddenCosts(r, provider, profile, cs[..|cs| - 1]);
      InvisibleIsUnpriced(r, provider, profile, cs[|cs| - 1]);
    }
  }

  /** Pricing each event on its own never costs more than pricing their sum at one rate, whether their cache writes are shown
      or not: only single events that pass the long-context threshold pay its multipliers. */
  lemma {:induction false} PerEventNeverDearer(r: PriceRule, provider: string, profile: string, cs: seq<Tokens>, visible: bool)
    requires SaneRates(r) && forall i :: 0 <= i < |cs| ==> Disjoint(cs[i])
    ensures SumCosts(r, provider, profile, cs, visible) <= CalculateCost(r, provider, profile, SumTokens(cs), visible).value
  {
    hide CalculateCost;
    if visible {
      ShownNeverDearer(r, provider, profile, cs);
    } else {
      HiddenCosts(r, provider, profile, cs);
      ShownNeverDearer(r.(write := None), provider, profile, cs);
      InvisibleIsUnpriced(r, provider, profile, SumTokens(cs));
    }
  }
}
