/** The numeric protocol as a whole: a server that numbers its views, forgets them and restarts; full answers and
    patches that are lost, repeated, delayed and reordered; and one browser. */
module Replication {
  import opened Wrappers
  import opened Wire
  import opened Snapshots
  import opened Browser
  import opened NumericViews

  // Which view was given which revision, in which run of the server.
  type History = map<(string, int), Snapshot>

  datatype System = System(
    epoch: string,
    store: Store,
    history: History,
    answers: set<Snapshot>,       // every full snapshot ever sent; any of them may still arrive, any number of times
    patches: set<Numbers>,        // every patch ever pushed
    browser: Option<Snapshot>,
    expected: string)             // the epoch the last heartbeat named

  datatype Step =
    | Restart(epoch: string)
    | Forget(key: string)
    | Get(built: Snapshot, now: Instant)
    | Push(key: string, next: Option<Snapshot>, now: Instant, large: bool)
    | AnswerArrives(answer: Snapshot)
    | PatchArrives(patch: Numbers)
    | Heartbeat(epoch: string)

  const EMPTY_STORE := Store(map[], 0)

  function Start(epoch: string): System {
    System(epoch, EMPTY_STORE, map[], {}, {}, None, "")
  }

  /** What a query can have built: a view of this run, with at most one row for each conversation. */
  ghost predicate Built(s: System, v: Snapshot) {
    v.head.epoch == s.epoch && v.head.queryKey != "" && DistinctKeys(v.sessions)
  }

  /** A revision that is new to the store enters the history. */
  function Recorded(s: System, after: Store, v: Snapshot): History {
    if after.sequence == s.store.sequence then s.history else s.history[(s.epoch, v.head.revision) := v]
  }

  function Shown(s: System, v: Snapshot): System {
    if AcceptsSnapshot(s.browser, v, s.expected) then s.(browser := Some(v)) else s
  }

  function AfterGet(s: System, built: Snapshot, now: Instant): System {
    var (store, v) := Adopt(s.store, built, now);
    s.(store := store, history := Recorded(s, store, v), answers := s.answers + {v})
  }

  function AfterPush(s: System, key: string, built: Option<Snapshot>, now: Instant, large: bool): System
    requires built.Some? ==> built.value.head.queryKey == key
  {
    var (store, m) := Publish(s.store, key, built, now, large);
    var history := if key in s.store.entries && built.Some? then Recorded(s, store, Adopt(s.store, built.value, now).1) else s.history;
    s.(store := store, history := history, patches := s.patches + if m.Patch? then {m.numbers} else {})
  }

  /** One step; a step that cannot happen changes nothing. A restart takes a new random epoch. */
  ghost function Next(s: System, step: Step): System {
    match step
    case Restart(epoch) =>
      if epoch != "" && (forall k :: k in s.history ==> k.0 != epoch) then s.(epoch := epoch, store := EMPTY_STORE) else s
    case Forget(key) => s.(store := s.store.(entries := s.store.entries - {key}))
    case Get(built, now) => if Built(s, built) then AfterGet(s, built, now) else s
    case Push(key, built, now, large) =>
      if built.Some? ==> Built(s, built.value) && built.value.head.queryKey == key then AfterPush(s, key, built, now, large) else s
    case AnswerArrives(v) => if v in s.answers then Shown(s, v) else s
    case PatchArrives(m) =>
      if m !in s.patches then s
      else
        var outcome := ApplyNumbers(s.browser, m);
        if outcome.Value? then Shown(s, outcome.value) else s
    case Heartbeat(epoch) => s.(expected := epoch)
  }

  ghost function Run(epoch: string, steps: seq<Step>): System {
    if steps == [] then Start(epoch) else Next(Run(epoch, steps[..|steps| - 1]), steps[|steps| - 1])
  }

  /* ---- The invariant ---- */

  ghost predicate InHistory(h: History, v: Snapshot) {
    (v.head.epoch, v.head.revision) in h && h[(v.head.epoch, v.head.revision)] == v
  }

  /** Every recorded view carries the epoch and revision it is recorded under. */
  ghost predicate WellRecorded(h: History) {
    forall k :: k in h ==> h[k].head.epoch == k.0 && h[k].head.revision == k.1 && DistinctKeys(h[k].sessions)
  }

  ghost predicate StoreRecorded(s: System) {
    && (forall k :: k in s.history && k.0 == s.epoch ==> k.1 <= s.store.sequence)
    && forall key :: key in s.store.entries ==>
         var e := s.store.entries[key];
         && InHistory(s.history, e.value) && InHistory(s.history, e.published)
         && e.value.head.queryKey == key == e.published.head.queryKey
         && e.value.head.epoch == s.epoch == e.published.head.epoch
         && (e.published == e.value
             || (e.published.head.revision < e.value.head.revision && Later(e.published, e.value)))
  }

  ghost predicate PatchOf(h: History, m: Numbers, before: Snapshot, after: Snapshot) {
    && InHistory(h, before) && InHistory(h, after) && m == Difference(before, after)
    && before.head.epoch == after.head.epoch && before.head.queryKey == after.head.queryKey
    && before.head.revision < after.head.revision && Later(before, after)
  }

  ghost predicate Genuine(h: History, m: Numbers) {
    exists before, after :: PatchOf(h, m, before, after)
  }

  /** The browser shows what the server recorded under the epoch and revision it holds. */
  ghost predicate Faithful(s: System) {
    s.browser.Some? ==>
      var b := s.browser.value;
      (b.head.epoch, b.head.revision) in s.history && Alike(b, s.history[(b.head.epoch, b.head.revision)])
  }

  ghost predicate Inv(s: System) {
    && WellRecorded(s.history)
    && StoreRecorded(s)
    && (forall v :: v in s.answers ==> InHistory(s.history, v))
    && (forall m :: m in s.patches ==> Genuine(s.history, m))
    && Faithful(s)
  }

  /** The history is only added to. */
  ghost predicate Extends(h: History, more: History) {
    forall k :: k in h ==> k in more && more[k] == h[k]
  }

  lemma GenuineStays(h: History, more: History, m: Numbers)
    requires Extends(h, more) && Genuine(h, m)
    ensures Genuine(more, m)
  {
    var before, after :| PatchOf(h, m, before, after);
    assert PatchOf(more, m, before, after);
  }

  /** Adopting only adds to the history. */
  lemma AdoptRecords(s: System, built: Snapshot, now: Instant)
    requires WellRecorded(s.history) && StoreRecorded(s) && Built(s, built)
    ensures var (store, v) := Adopt(s.store, built, now);
            var h := Recorded(s, store, v);
            Extends(s.history, h) && WellRecorded(h) && InHistory(h, v)
  {
    hide DistinctKeys, Stays, Later;
    assert (s.epoch, s.store.sequence + 1) !in s.history;
  }

  /** What it does to the store: the published base stays, and the new view is later than it. */
  lemma AdoptStores(s: System, built: Snapshot, now: Instant)
    requires StoreRecorded(s) && Built(s, built)
    ensures var (store, v) := Adopt(s.store, built, now);
            && v.head.queryKey == built.head.queryKey && v.head.epoch == s.epoch && built.head.queryKey in store.entries
            && store.entries[built.head.queryKey].value == v
            && (built.head.queryKey in s.store.entries ==>
                  store.entries[built.head.queryKey].published == s.store.entries[built.head.queryKey].published)
            && var e := store.entries[built.head.queryKey];
               e.published == v || (e.published.head.revision < v.head.revision && Later(e.published, v))
  {
    hide DistinctKeys, Stays;
    if built.head.queryKey in s.store.entries {
      AdoptionClimbs(s.store, built, now);
      assert InHistory(s.history, s.store.entries[built.head.queryKey].value);
    }
  }

  lemma AdoptKeeps(s: System, built: Snapshot, now: Instant)
    requires WellRecorded(s.history) && StoreRecorded(s) && Built(s, built)
    ensures var (store, v) := Adopt(s.store, built, now);
            StoreRecorded(s.(store := store, history := Recorded(s, store, v)))
  {
    hide DistinctKeys, Stays, Later, WellRecorded;
    AdoptRecords(s, built, now);
    AdoptStores(s, built, now);
  }

  lemma SameHistory(s: System, t: System)
    requires Inv(s) && t.history == s.history && t.answers == s.answers && t.patches == s.patches
    requires StoreRecorded(t) && Faithful(t)
    ensures Inv(t)
  {
  }

  lemma LongerHistory(s: System, t: System)
    requires Inv(s) && Extends(s.history, t.history) && WellRecorded(t.history) && StoreRecorded(t)
    requires t.browser == s.browser
    requires forall v :: v in t.answers && v !in s.answers ==> InHistory(t.history, v)
    requires forall m :: m in t.patches && m !in s.patches ==> Genuine(t.history, m)
    ensures Inv(t)
  {
    hide WellRecorded, StoreRecorded, Genuine, Alike;
    forall m | m in t.patches ensures Genuine(t.history, m) {
      if m in s.patches {
        GenuineStays(s.history, t.history, m);
      }
    }
    forall v | v in t.answers ensures InHistory(t.history, v) {
      assert v in s.answers ==> InHistory(s.history, v);
    }
  }

  lemma {:induction false} PushKeeps(s: System, key: string, built: Snapshot, now: Instant, large: bool)
    requires Inv(s) && Built(s, built) && built.head.queryKey == key && key in s.store.entries
    ensures Inv(AfterPush(s, key, Some(built), now, large))
  {
    hide DistinctKeys, Difference, Adopt;
    AdoptKeeps(s, built, now);
    AdoptRecords(s, built, now);
    AdoptStores(s, built, now);
    var (store, v) := Adopt(s.store, built, now);
    var h, published, t := Recorded(s, store, v), s.store.entries[key].published, AfterPush(s, key, Some(built), now, large);
    assert InHistory(h, published);
    if published.head.revision != v.head.revision {
      PublishedMoves(s.(store := store, history := h), key, v);
      assert PatchOf(h, Difference(published, v), published, v);
    }
    LongerHistory(s, t);
  }

  lemma PublishedMoves(s: System, key: string, v: Snapshot)
    requires StoreRecorded(s) && key in s.store.entries && s.store.entries[key].value == v
    ensures StoreRecorded(s.(store := s.store.(entries := s.store.entries[key := s.store.entries[key].(published := v)])))
  {
  }

  lemma ShownKeeps(s: System, v: Snapshot)
    requires Inv(s) && Faithful(s.(browser := Some(v)))
    ensures Inv(Shown(s, v))
  {
    hide AcceptsSnapshot, Alike, Genuine, WellRecorded;
  }

  lemma AnswerKeeps(s: System, v: Snapshot)
    requires Inv(s) && v in s.answers
    ensures Inv(Shown(s, v))
  {
    hide Genuine, WellRecorded, StoreRecorded, RowMap;
    assert InHistory(s.history, v);
    ShownKeeps(s, v);
  }

  lemma PatchKeeps(s: System, m: Numbers)
    requires Inv(s) && m in s.patches
    ensures Inv(Next(s, PatchArrives(m)))
  {
    hide DistinctKeys, Difference, Alike, Genuine, StoreRecorded, AcceptsSnapshot;
    var outcome := ApplyNumbers(s.browser, m);
    if outcome.Value? {
      PatchedIsRecorded(s, m);
      ShownKeeps(s, outcome.value);
    }
  }

  lemma PatchedIsRecorded(s: System, m: Numbers)
    requires Inv(s) && m in s.patches && ApplyNumbers(s.browser, m).Value?
    ensures Faithful(s.(browser := Some(ApplyNumbers(s.browser, m).value)))
  {
    hide DistinctKeys, StoreRecorded, RowMap, UpsertAll, Drop, Changed;
    assert Genuine(s.history, m);
    var before, after :| PatchOf(s.history, m, before, after);
    assert WellRecorded(s.history);
    DiffThenPatch(before, after, s.browser.value);
  }

  lemma {:induction false} NextKeeps(s: System, step: Step)
    requires Inv(s)
    ensures Inv(Next(s, step))
  {
    hide DistinctKeys, Alike, Genuine, AcceptsSnapshot, ApplyNumbers, Difference;
    match step
    case Restart(_) => SameHistory(s, Next(s, step));
    case Forget(_) => SameHistory(s, Next(s, step));
    case Heartbeat(_) => SameHistory(s, Next(s, step));
    case Get(built, now) => if Built(s, built) { GetKeeps(s, built, now); }
    case Push(key, built, now, large) =>
      if built.Some? ==> Built(s, built.value) && built.value.head.queryKey == key {
        if built.Some? && key in s.store.entries {
          PushKeeps(s, key, built.value, now, large);
        } else {
          IdlePush(s, key, built, now, large);
        }
      }
    case AnswerArrives(v) => if v in s.answers { AnswerKeeps(s, v); }
    case PatchArrives(m) => if m in s.patches { PatchKeeps(s, m); }
  }

  lemma {:induction false} GetKeeps(s: System, built: Snapshot, now: Instant)
    requires Inv(s) && Built(s, built)
    ensures Inv(AfterGet(s, built, now))
  {
    hide DistinctKeys, Adopt;
    AdoptKeeps(s, built, now);
    AdoptRecords(s, built, now);
    LongerHistory(s, AfterGet(s, built, now));
  }

  lemma IdlePush(s: System, key: string, built: Option<Snapshot>, now: Instant, large: bool)
    requires built.Some? ==> built.value.head.queryKey == key
    requires built.None? || key !in s.store.entries
    ensures AfterPush(s, key, built, now, large) == s
  {
    assert s.patches + {} == s.patches;
  }

  lemma {:induction false} InvAlways(epoch: string, steps: seq<Step>)
    ensures Inv(Run(epoch, steps))
  {
    if steps != [] {
      InvAlways(epoch, steps[..|steps| - 1]);
      NextKeeps(Run(epoch, steps[..|steps| - 1]), steps[|steps| - 1]);
    }
  }

  /** In every run, whatever is lost, repeated, delayed or reordered, the browser holds exactly the view the server
      gave that revision in that run of the server: every headline field, and every row by key. */
  lemma BrowserIsFaithful(epoch: string, steps: seq<Step>)
    ensures Faithful(Run(epoch, steps))
  {
    InvAlways(epoch, steps);
  }

  /** Every patch that takes effect takes the browser to a view read strictly later: at a later data revision, or
      at the same one with a later end of range. */
  lemma PatchesMoveForward(epoch: string, steps: seq<Step>, m: Numbers)
    requires var s := Run(epoch, steps); m in s.patches && ApplyNumbers(s.browser, m).Value?
    ensures var s := Run(epoch, steps); Later(s.browser.value, ApplyNumbers(s.browser, m).value)
  {
    hide Run, DistinctKeys, StoreRecorded, RowMap, UpsertAll, Drop, Changed;
    InvAlways(epoch, steps);
    var s := Run(epoch, steps);
    assert Genuine(s.history, m);
    var before, after :| PatchOf(s.history, m, before, after);
    assert WellRecorded(s.history);
  }

  /* ---- Revisions do not fall ---- */

  function Held(browser: Option<Snapshot>): int { if browser.Some? then browser.value.head.revision else 0 }

  lemma StepClimbs(s: System, step: Step)
    requires Next(s, step).browser.Some? && SameStream(s.browser, Next(s, step).browser.value)
    ensures Held(s.browser) <= Held(Next(s, step).browser)
  {
    hide Adopt, Publish, Difference, UpsertAll, Drop;
  }

  /** As long as the browser stays with one query of one run of the server, its revision never decreases. */
  lemma {:induction false} RevisionsClimb(epoch: string, steps: seq<Step>, first: nat, last: nat)
    requires first <= last <= |steps|
    requires forall i :: first <= i <= last ==>
               Run(epoch, steps[..i]).browser.Some? && SameStream(Run(epoch, steps[..first]).browser, Run(epoch, steps[..i]).browser.value)
    ensures Held(Run(epoch, steps[..first]).browser) <= Held(Run(epoch, steps[..last]).browser)
    decreases last
  {
    hide Next;
    if first == last {
      assert Held(Run(epoch, steps[..first]).browser) == Held(Run(epoch, steps[..last]).browser);
    } else {
      RevisionsClimb(epoch, steps, first, last - 1);
      assert SameStream(Run(epoch, steps[..first]).browser, Run(epoch, steps[..last - 1]).browser.value);
      assert SameStream(Run(epoch, steps[..first]).browser, Run(epoch, steps[..last]).browser.value);
      assert steps[..last][..last - 1] == steps[..last - 1] && steps[..last][last - 1] == steps[last - 1];
      StepClimbs(Run(epoch, steps[..last - 1]), steps[last - 1]);
    }
  }

  /* ---- A restart is final ---- */

  lemma StaysThroughStep(s: System, step: Step, epoch: string)
    requires epoch != "" && s.expected == epoch && s.browser.Some? && s.browser.value.head.epoch == epoch
    requires step.Heartbeat? ==> step.epoch == epoch
    ensures var t := Next(s, step); t.expected == epoch && t.browser.Some? && t.browser.value.head.epoch == epoch
  {
    hide Adopt, Publish, Difference, UpsertAll, Drop, Built;
  }

  /** Once the browser shows a view of the run that heartbeats name, no answer or patch left over from another run can
      take it back, for as long as heartbeats go on naming that run. */
  lemma {:induction false} StaysWithRun(epoch: string, steps: seq<Step>, first: nat, last: nat, named: string)
    requires first <= last <= |steps| && named != ""
    requires var s := Run(epoch, steps[..first]); s.expected == named && s.browser.Some? && s.browser.value.head.epoch == named
    requires forall i :: first <= i < last && steps[i].Heartbeat? ==> steps[i].epoch == named
    ensures var s := Run(epoch, steps[..last]); s.expected == named && s.browser.Some? && s.browser.value.head.epoch == named
    decreases last
  {
    hide Next;
    if first < last {
      StaysWithRun(epoch, steps, first, last - 1, named);
      assert steps[..last][..last - 1] == steps[..last - 1] && steps[..last][last - 1] == steps[last - 1];
      StaysThroughStep(Run(epoch, steps[..last - 1]), steps[last - 1], named);
    }
  }

  /* ---- What is sent is shown ---- */

  /** The answer to a full query is the view the store holds when it is sent. */
  lemma StoredIsSent(s: System, built: Snapshot, now: Instant)
    requires Built(s, built)
    ensures var t := Next(s, Get(built, now));
            && built.head.queryKey in t.store.entries && t.store.entries[built.head.queryKey].value in t.answers
            && t.answers == s.answers + {t.store.entries[built.head.queryKey].value}
  {
    hide Stays, DistinctKeys;
  }

  /** In a run of n steps: every recorded view names its run and its query, revisions count from one and have not passed n,
      and the stored view of a query has the largest revision of that query in this run of the server. */
  ghost predicate Numbering(s: System, n: nat) {
    && s.epoch != "" && 0 <= s.store.sequence <= n
    && (forall k :: k in s.history ==> k.0 != "" && s.history[k].head.queryKey != "" && 1 <= k.1 <= n)
    && forall k :: k in s.history && k.0 == s.epoch && s.history[k].head.queryKey in s.store.entries ==>
         k.1 <= s.store.entries[s.history[k].head.queryKey].value.head.revision
  }

  lemma AdoptNumbers(s: System, built: Snapshot, now: Instant, n: nat)
    requires StoreRecorded(s) && Numbering(s, n) && Built(s, built)
    ensures var (store, v) := Adopt(s.store, built, now);
            Numbering(s.(store := store, history := Recorded(s, store, v)), n + 1)
  {
    hide DistinctKeys, Stays, Later;
  }

  lemma PushNumbers(s: System, key: string, built: Snapshot, now: Instant, large: bool, n: nat)
    requires StoreRecorded(s) && Numbering(s, n) && Built(s, built) && built.head.queryKey == key && key in s.store.entries
    ensures Numbering(AfterPush(s, key, Some(built), now, large), n + 1)
  {
    hide Adopt, Difference, DistinctKeys, Later;
    AdoptNumbers(s, built, now, n);
    AdoptStores(s, built, now);
  }

  lemma NextNumbers(s: System, step: Step, n: nat)
    requires Inv(s) && Numbering(s, n)
    ensures Numbering(Next(s, step), n + 1)
  {
    hide DistinctKeys, Adopt, Publish, AfterPush, ApplyNumbers, AcceptsSnapshot, WellRecorded, Genuine, Faithful, StoreRecorded;
    match step
    case Get(built, now) => if Built(s, built) { AdoptNumbers(s, built, now, n); }
    case Push(key, built, now, large) =>
      if built.Some? ==> Built(s, built.value) && built.value.head.queryKey == key {
        if built.Some? && key in s.store.entries {
          PushNumbers(s, key, built.value, now, large, n);
        } else {
          IdlePush(s, key, built, now, large);
        }
      }
    case _ =>
  }

  lemma {:induction false} NumberingAlways(epoch: string, steps: seq<Step>)
    requires epoch != ""
    ensures Numbering(Run(epoch, steps), |steps|)
  {
    hide Next, Numbering, Inv;
    if steps == [] {
      NumbersFromNone(epoch);
    } else {
      NumberingAlways(epoch, steps[..|steps| - 1]);
      InvAlways(epoch, steps[..|steps| - 1]);
      NextNumbers(Run(epoch, steps[..|steps| - 1]), steps[|steps| - 1], |steps| - 1);
    }
  }

  lemma NumbersFromNone(epoch: string)
    requires epoch != ""
    ensures Numbering(Start(epoch), 0)
  {
  }

  /** Every answer that was sent, of the run that heartbeats name (or when none has), is presentable, for 2^53 - 1 steps. */
  lemma SentIsPresentable(epoch: string, steps: seq<Step>, v: Snapshot)
    requires epoch != "" && |steps| <= MAX_SAFE
    requires var s := Run(epoch, steps); v in s.answers && s.expected in {"", v.head.epoch}
    ensures Presentable(v, Run(epoch, steps).expected)
  {
    hide Run, WellRecorded, StoreRecorded, Genuine, Faithful;
    InvAlways(epoch, steps);
    NumberingAlways(epoch, steps);
    assert InHistory(Run(epoch, steps).history, v);
  }

  /** A change of range and a restart reach the page: the first answer of the new stream that arrives, whatever its revision,
      is what the browser holds. And an answer of the stream held never leaves it behind the answer. */
  lemma ArrivalIsShown(epoch: string, steps: seq<Step>, v: Snapshot)
    requires epoch != "" && |steps| <= MAX_SAFE
    requires var s := Run(epoch, steps); v in s.answers && s.expected in {"", v.head.epoch}
    ensures var s, b := Run(epoch, steps), Run(epoch, steps + [AnswerArrives(v)]).browser;
            && (!SameStream(s.browser, v) ==> b == Some(v))
            && SameStream(b, v) && v.head.revision <= b.value.head.revision
            && (b.value.head.revision == v.head.revision ==> Millis(v.head.rangeEnd) <= Millis(b.value.head.rangeEnd))
  {
    hide Run, AcceptsSnapshot;
    SentIsPresentable(epoch, steps, v);
    AcceptedExactly(Run(epoch, steps).browser, v, Run(epoch, steps).expected);
    RunsOn(epoch, steps, AnswerArrives(v));
  }

  lemma RunsOn(epoch: string, steps: seq<Step>, step: Step)
    ensures Run(epoch, steps + [step]) == Next(Run(epoch, steps), step)
  {
    hide Next;
    assert (steps + [step])[..|steps|] == steps;
  }

  /** The answer that carries the stored view brings the page to it: afterwards the browser shows that view, headline and
      every row, whatever it held before and whatever else was lost or reordered. */
  lemma StoredReachesPage(epoch: string, steps: seq<Step>, key: string)
    requires epoch != "" && |steps| <= MAX_SAFE
    requires var s := Run(epoch, steps);
             key in s.store.entries && s.store.entries[key].value in s.answers && s.expected in {"", s.epoch}
    ensures var s := Run(epoch, steps);
            var v := s.store.entries[key].value;
            var b := Run(epoch, steps + [AnswerArrives(v)]).browser;
            b.Some? && Alike(b.value, v)
  {
    hide Run, Next, AcceptsSnapshot, Genuine, Alike;
    var s := Run(epoch, steps);
    var v := s.store.entries[key].value;
    InvAlways(epoch, steps);
    assert InHistory(s.history, v);
    ArrivalIsShown(epoch, steps, v);
    BrowserIsFaithful(epoch, steps + [AnswerArrives(v)]);
    RunsOn(epoch, steps, AnswerArrives(v));
    NumberingAlways(epoch, steps);
    OnlyTheBrowser(s, v);
    var b := Run(epoch, steps + [AnswerArrives(v)]).browser.value;
    FaithfulQuery(Run(epoch, steps + [AnswerArrives(v)]));
    assert (b.head.epoch, b.head.revision) in s.history;
    assert b.head.revision <= v.head.revision;
  }

  lemma OnlyTheBrowser(s: System, v: Snapshot)
    ensures Next(s, AnswerArrives(v)).(browser := s.browser) == s
  {
  }

  lemma FaithfulQuery(s: System)
    requires Faithful(s) && s.browser.Some?
    ensures var b := s.browser.value;
            (b.head.epoch, b.head.revision) in s.history
            && s.history[(b.head.epoch, b.head.revision)].head.queryKey == b.head.queryKey
  {
  }
}
