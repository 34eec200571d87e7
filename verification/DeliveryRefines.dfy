/** The gap analysis of Delivery against the modules it abstracts: each of its moves is what the view store, the hub, the
    browser or the loader does, seen through an abstraction. */
module DeliveryRefines {
  import opened Wrappers
  import opened Snapshots
  import Browser
  import NumericViews
  import Hub
  import Loader
  import opened Delivery

  /* ---- The view store ---- */

  /** The store holds the query's view and its published base under these revisions. */
  predicate Stores(v: Views, store: NumericViews.Store, key: string) {
    && v.base == (if key in store.entries then Some(store.entries[key].published.head.revision) else None)
    && (key in store.entries ==>
          v.view == store.entries[key].value.head.revision && DataOf(v, v.view) == store.entries[key].value.head.dataRevision)
    && v.view <= store.sequence
  }

  function AbsView(v: Snapshot): Built { Built(v.head.revision, v.head.dataRevision) }

  function AbsNumbers(m: Browser.Numbers): Frame { Numbers(m.baseRevision, m.head.revision) }

  function AbsMessage(m: NumericViews.Message): Option<Frame> {
    match m
    case Silence => None
    case Resynchronise => Some(Resync)
    case Patch(numbers) => Some(AbsNumbers(numbers))
  }

  lemma AdoptIsAdopted(v: Views, store: NumericViews.Store, key: string, built: Snapshot, now: int, sequence: int)
    requires Stores(v, store, key) && built.head.queryKey == key && built.head.dataRevision <= sequence
    ensures var (after, w) := NumericViews.Adopt(store, built, now);
            CanAdopt(v, AbsView(w), sequence) && Stores(Adopted(v, AbsView(w)), after, key)
    ensures key in store.entries ==> NumericViews.Adopt(store, built, now).0.entries[key].published == store.entries[key].published
  {
    hide NumericViews.SameAccounting;
  }

  lemma CacheAside(v: Views, store: NumericViews.Store, key: string, cache: map<int, int>)
    requires Stores(v, store, key)
    ensures Stores(v.(cache := cache), store, key)
  {
  }

  /** Another reader's full answer. */
  lemma GetCommutes(s: State, store: NumericViews.Store, key: string, built: Snapshot, now: int, at: int)
    requires Stores(s.views, store, key) && built.head.queryKey == key && built.head.dataRevision <= s.sequence && at <= s.sequence
    ensures var (after, v) := NumericViews.Adopt(store, built, now);
            Stores(Next(s, OtherGet(at, AbsView(v))).views, after, key)
  {
    hide NumericViews.Adopt, CanAdopt, Adopted, Stores;
    AdoptIsAdopted(s.views, store, key, built, now, s.sequence);
    var (after, v) := NumericViews.Adopt(store, built, now);
    CacheAside(Adopted(s.views, AbsView(v)), after, key, s.views.cache[at := v.head.revision]);
  }

  /** This browser's full answer, when it does not come from the cache. */
  lemma AnswerCommutes(s: State, store: NumericViews.Store, key: string, built: Snapshot, now: int, young: bool)
    requires Stores(s.views, store, key) && built.head.queryKey == key && built.head.dataRevision <= s.sequence
    requires Waits(s) && !FromCache(s, young)
    ensures var (after, v) := NumericViews.Adopt(store, built, now);
            var t := Next(s, Answer(young, AbsView(v)));
            Stores(t.views, after, key) && t.page.flight == Some(Answered(v.head.revision))
  {
    hide NumericViews.Adopt, CanAdopt, Adopted, Stores;
    AdoptIsAdopted(s.views, store, key, built, now, s.sequence);
    var (after, v) := NumericViews.Adopt(store, built, now);
    CacheAside(Adopted(s.views, AbsView(v)), after, key, s.views.cache[s.page.flight.value.sequence := v.head.revision]);
  }

  /** The query's turn: the same store, and the same message in the publisher's hands. */
  lemma TurnCommutes(s: State, store: NumericViews.Store, key: string, built: Option<Snapshot>, now: int, large: bool)
    requires Stores(s.views, store, key) && s.round.Copied?
    requires built.Some? ==> built.value.head.queryKey == key && built.value.head.dataRevision <= s.sequence
    ensures var (after, m) := NumericViews.Publish(store, key, built, now, large);
            var next := if built.Some? then Some(AbsView(NumericViews.Adopt(store, built.value, now).1)) else None;
            var t := Next(s, Turn(next, large));
            Stores(t.views, after, key) && t.round == Turned(s.round.mine, AbsMessage(m))
  {
    if key in store.entries && built.Some? {
      hide Stores, NumericViews.Adopt, NumericViews.Publish, TurnTaken;
      TurnMoves(s, store, key, built.value, now, large);
    }
  }

  lemma TurnMoves(s: State, store: NumericViews.Store, key: string, built: Snapshot, now: int, large: bool)
    requires Stores(s.views, store, key) && s.round.Copied? && key in store.entries
    requires built.head.queryKey == key && built.head.dataRevision <= s.sequence
    ensures var (after, m) := NumericViews.Publish(store, key, Some(built), now, large);
            var t := Next(s, Turn(Some(AbsView(NumericViews.Adopt(store, built, now).1)), large));
            Stores(t.views, after, key) && t.round == Turned(s.round.mine, AbsMessage(m))
  {
    hide NumericViews.Adopt, NumericViews.Difference, CanAdopt, Adopted, Stores;
    AdoptIsAdopted(s.views, store, key, built, now, s.sequence);
    AdoptedValue(store, built, now);
    StoredBase(s.views, store, key);
    var (after, v) := NumericViews.Adopt(store, built, now);
    if store.entries[key].published.head.revision != v.head.revision {
      MovedBase(Adopted(s.views, AbsView(v)), after, key, v);
      DifferenceNames(store.entries[key].published, v);
    }
  }

  lemma StoredBase(v: Views, store: NumericViews.Store, key: string)
    requires Stores(v, store, key) && key in store.entries
    ensures v.base == Some(store.entries[key].published.head.revision)
  {
  }

  lemma MovedBase(v: Views, store: NumericViews.Store, key: string, w: Snapshot)
    requires Stores(v, store, key) && key in store.entries && store.entries[key].value == w
    ensures Stores(v.(base := Some(w.head.revision), published := w.head.revision),
                   store.(entries := store.entries[key := store.entries[key].(published := w)]), key)
  {
  }

  lemma DifferenceNames(before: Snapshot, after: Snapshot)
    ensures AbsNumbers(NumericViews.Difference(before, after)) == Numbers(before.head.revision, after.head.revision)
  {
  }

  lemma AdoptedValue(store: NumericViews.Store, built: Snapshot, now: int)
    ensures var (after, v) := NumericViews.Adopt(store, built, now);
            built.head.queryKey in after.entries && after.entries[built.head.queryKey].value == v
  {
  }

  lemma EvictCommutes(s: State, store: NumericViews.Store, key: string)
    requires Stores(s.views, store, key)
    ensures Stores(Next(s, Evict).views, store.(entries := store.entries - {key}), key)
  {
  }

  /* ---- The hub ---- */

  // How the payload of the query's frames decode.
  type Decoder = Hub.Frame -> Frame

  function AbsSlot(slot: Option<Hub.Frame>, decode: Decoder): Option<Frame> {
    if slot.Some? then Some(decode(slot.value)) else None
  }

  /** The hub with the browser's present channel: subscribed exactly while the stream is. */
  predicate Hubs(s: State, h: Hub.State, id: Hub.Channel, decode: Decoder) {
    && s.sequence == h.sequence && s.dirty == h.dirty
    && (Subscribed(s) <==> id in h.clients)
    && (id in h.clients ==> id in h.slots && s.slot == AbsSlot(h.slots[id], decode))
  }

  lemma MarkCommutes(s: State, h: Hub.State, id: Hub.Channel, decode: Decoder, full: bool)
    requires Hubs(s, h, id, decode)
    ensures Hubs(Next(s, Mark), Hub.Next(h, Hub.Mark(full)), id, decode)
  {
  }

  /** A publication begins: the browser's channel is among the copied ones exactly if it is subscribed. */
  lemma BeginCommutes(s: State, h: Hub.State, id: Hub.Channel, decode: Decoder)
    requires Hubs(s, h, id, decode) && s.round.Idle?
    ensures var (after, copy) := Hub.Begun(h);
            var t := Next(s, Begin);
            Hubs(t, after, id, decode) && t.round == if copy.Some? then Copied(id in copy.value) else Idle
  {
  }

  /** Sending what the turn yielded to the copied channels: the newest frame wins the slot. */
  lemma SendCommutes(s: State, h: Hub.State, id: Hub.Channel, decode: Decoder, frame: Option<Hub.Frame>)
    requires Hubs(s, h, id, decode) && s.round.Turned? && s.round.frame == AbsSlot(frame, decode)
    requires s.round.mine ==> id in h.clients
    ensures Hubs(Next(s, Send), if s.round.mine then Hub.Next(h, Hub.Send(id, frame)) else h, id, decode)
  {
  }

  lemma TakeCommutes(s: State, h: Hub.State, id: Hub.Channel, decode: Decoder)
    requires Hubs(s, h, id, decode) && s.stream.Streaming? && h.slots[id].Some?
    ensures Hubs(Next(s, TakeFrame), Hub.Next(h, Hub.Take(id)), id, decode)
    ensures Next(s, TakeFrame).wire == s.wire + [decode(h.slots[id].value)]
  {
  }

  /** A stream registers under a new channel, with an empty slot. */
  lemma RegisterCommutes(s: State, h: Hub.State, was: Hub.Channel, id: Hub.Channel, c: Hub.Client, decode: Decoder)
    requires Hubs(s, h, was, decode) && s.stream.Closed? && s.slot.None? && id !in h.slots
    ensures Hubs(Next(s, Register), Hub.Next(h, Hub.Join(id, c)), id, decode)
  {
  }

  /** A stream that breaks, or that the page closes. */
  lemma LeaveCommutes(s: State, h: Hub.State, id: Hub.Channel, decode: Decoder, step: Step)
    requires Hubs(s, h, id, decode) && (step.Disconnect? || step.Suspend? || step.Resume?)
    ensures Hubs(Next(s, step), Hub.Next(h, Hub.Leave(id)), id, decode)
  {
  }

  /* ---- The browser ---- */

  /** What a patch does to the page is what applying it does, for a browser that holds a view of the stream as recorded
      under its revision. */
  lemma PatchCommutes(p: Page, current: Snapshot, before: Snapshot, after: Snapshot, known: int)
    requires p.held == current.head.revision
    requires DistinctKeys(after.sessions) && Browser.Safe(after.head.revision)
    requires before.head.epoch == after.head.epoch == current.head.epoch
    requires before.head.queryKey == after.head.queryKey == current.head.queryKey
    requires before.head.revision < after.head.revision
    requires current.head.revision == before.head.revision ==> NumericViews.Alike(current, before)
    requires current.head.revision == after.head.revision ==> NumericViews.Alike(current, after)
    ensures var m := NumericViews.Difference(before, after);
            Consume(p, AbsNumbers(m), known) ==
            match Browser.ApplyNumbers(Some(current), m)
            case Ignored => p
            case Value(v) => p.(held := v.head.revision, failed := false)
            case Resync => AskFor(p)
  {
    hide NumericViews.Changed, NumericViews.Residual, Browser.UpsertAll, Browser.Drop, Browser.RowMap;
    NumericViews.DiffThenPatch(before, after, current);
  }

  /** An answer that arrives is shown exactly when the page accepts the snapshot, and otherwise makes a visible page arm its
      refresh timer; one that was dropped does neither. */
  lemma ArrivalCommutes(p: Page, current: Option<Snapshot>, answer: Snapshot, expected: string, visible: bool)
    requires p.flight == Some(Answered(answer.head.revision))
    requires p.held == (if current.Some? then current.value.head.revision else 0)
    requires current.Some? ==> answer.head.epoch == current.value.head.epoch && answer.head.queryKey == current.value.head.queryKey
    requires answer.head.epoch != "" && answer.head.queryKey != "" && 0 <= answer.head.revision
    requires Browser.Safe(answer.head.revision) && (expected == "" || expected == answer.head.epoch)
    requires current.Some? && answer.head.revision == current.value.head.revision ==> NumericViews.Alike(current.value, answer)
    ensures var accepted := Browser.AcceptsSnapshot(current, answer, expected);
            && Arrived(p, visible).held == (if !p.dropped && accepted then answer.head.revision else p.held)
            && Arrived(p, visible).refresh == (p.refresh || (!p.dropped && !accepted && visible))
  {
    hide Browser.RowMap;
  }

  /* ---- The loader ---- */

  /** The loader as the page uses it; a request that was replaced or cancelled is one whose ticket is no longer the latest. */
  predicate Loads(p: Page, l: Loader.State) {
    && (p.flight.Some? <==> l.current.Some?) && (p.trailing <==> l.pending.Some?)
    && (p.dropped ==> p.flight.Some?)
    && (l.current.Some? ==>
          && l.current.value.ticket <= l.sequence
          && (p.dropped <==> l.current.value.ticket != l.sequence) && (!p.dropped ==> !l.current.value.aborted))
    && (p.failed ==> l.current.None? && l.statuses != [] && l.statuses[|l.statuses| - 1].Error?)
  }

  lemma AskCommutes(p: Page, l: Loader.State, query: string)
    requires Loads(p, l)
    ensures Loads(AskFor(p), Loader.Next(l, Loader.Load(Loader.Call(query, false))))
  {
  }

  lemma ReloadCommutes(p: Page, l: Loader.State, query: string)
    requires Loads(p, l)
    ensures Loads(Reloaded(p), Loader.Next(l, Loader.Load(Loader.Call(query, true))))
  {
  }

  lemma CancelCommutes(p: Page, l: Loader.State)
    requires Loads(p, l)
    ensures Loads(Cancelled(p), Loader.Next(l, Loader.Cancel))
  {
  }

  /** An arrival ends the request, hands its data to the page unless it was dropped, and starts the pending one. */
  lemma SettleCommutes(p: Page, l: Loader.State, data: string, visible: bool)
    requires Loads(p, l) && p.flight.Some? && p.flight.value.Answered?
    ensures var after := Loader.Next(l, Loader.Settle(Loader.Data(data)));
            Loads(Arrived(p, visible), after) && after.rendered == l.rendered + if p.dropped then [] else [data]
  {
  }

  /** How a request fails: an error, or the time-out, which aborts it. */
  function Failing(l: Loader.State, timedOut: bool): Loader.State {
    Loader.Next(if timedOut then Loader.Next(l, Loader.Timeout) else l, Loader.Settle(Loader.Thrown))
  }

  /** A request that ends in an error leaves one on the page, unless it was dropped or another request follows. */
  lemma FailCommutes(p: Page, l: Loader.State, timedOut: bool)
    requires Loads(p, l) && p.flight.Some?
    ensures Loads(Failed(p), Failing(l, timedOut))
  {
  }
}
