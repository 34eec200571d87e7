/** The whole live path run together: the view store and the messages of the numeric protocol, the hub, the loader and the
    page, step by step beside the gap analysis of Delivery, for one browser at one query of one run of the server. */
module Live {
  import opened Wrappers
  import opened Snapshots
  import Browser
  import NumericViews
  import Hub
  import Loader
  import Replication
  import opened Delivery
  import opened DeliveryRefines

  datatype Setting = Setting(epoch: string, key: string, query: string, decode: Decoder)

  // `s` is the gap analysis; beside it run the protocol, the hub with the browser's present channel, and the loader.
  datatype Live = Live(s: State, r: Replication.System, h: Hub.State, id: Hub.Channel, l: Loader.State)

  datatype Move =
    | Marks(full: bool)
    | Begins
    | Turns(next: Option<Snapshot>, now: int, large: bool)
    | Sends(frame: Option<Hub.Frame>)
    | Skips
    | Forgets
    | OtherReader(at: int, built: Snapshot, now: int)
    | OtherQuery(step: Replication.Step)
    | OtherClient(act: Hub.Step)
    | Registers(id: Hub.Channel, client: Hub.Client)
    | Greets
    | Takes
    | Gets(m: Option<Browser.Numbers>)     // the next message on the stream; the patch, if it is one
    | Disconnects
    | Suspends
    | Resumes
    | Asks
    | Reloads
    | Refreshes
    | Receives
    | Answers(young: bool, built: Snapshot, now: int)
    | Arrives(answer: Snapshot)
    | Fails(timedOut: bool)

  predicate OfQuery(c: Setting, head: Head) { head.epoch == c.epoch && head.queryKey == c.key }

  /** A view of the query, read no later than the hub's sequence, that can be numbered. */
  ghost predicate Buildable(c: Setting, r: Replication.System, sequence: int, built: Snapshot) {
    && Replication.Built(r, built) && OfQuery(c, built.head) && built.head.dataRevision <= sequence
    && Browser.Safe(r.store.sequence + 1)
  }

  predicate Elsewhere(c: Setting, step: Replication.Step) {
    match step
    case Get(built, _) => built.head.queryKey != c.key
    case Push(key, _, _, _) => key != c.key
    case Forget(key) => key != c.key
    case Heartbeat(epoch) => epoch == c.epoch
    case _ => false
  }

  predicate Concerns(step: Hub.Step, id: Hub.Channel) {
    match step
    case Join(other, _) => other == id
    case Leave(other) => other == id
    case Take(other) => other == id
    case Send(other, _) => other == id
    case _ => true
  }

  ghost predicate Can(c: Setting, j: Live, move: Move) {
    match move
    case Begins => j.s.round.Idle?
    case Turns(next, _, _) => j.s.round.Copied? && (next.Some? ==> Buildable(c, j.r, j.h.sequence, next.value))
    case Sends(frame) => j.s.round.Turned? && AbsSlot(frame, c.decode) == j.s.round.frame
    case OtherReader(at, built, _) => at <= j.h.sequence && Buildable(c, j.r, j.h.sequence, built)
    case OtherQuery(step) => Elsewhere(c, step)
    case OtherClient(act) => !Concerns(act, j.id)
    case Registers(id, _) => j.s.stream.Closed? && id !in j.h.slots
    case Takes => j.s.stream.Streaming?
    case Gets(m) =>
      && j.s.wire != []
      && (j.s.wire[0].Numbers? <==> m.Some?)
      && (m.Some? ==> m.value in j.r.patches && OfQuery(c, m.value.head) && AbsNumbers(m.value) == j.s.wire[0])
    case Disconnects => !j.s.stream.Off?
    case Refreshes => j.s.page.refresh
    case Answers(young, built, _) => Waits(j.s) && (!FromCache(j.s, young) ==> Buildable(c, j.r, j.h.sequence, built))
    case Arrives(v) => v in j.r.answers && OfQuery(c, v.head) && j.s.page.flight == Some(Answered(v.head.revision))
    case Fails(_) => j.l.current.Some?
    case _ => true
  }

  /** The step of the gap analysis that a move is; none for what other queries and other clients do. */
  function StepOf(j: Live, move: Move): seq<Step> {
    match move
    case Marks(_) => [Mark]
    case Begins => [Begin]
    case Turns(next, now, large) =>
      [Turn(if next.Some? then Some(AbsView(NumericViews.Adopt(j.r.store, next.value, now).1)) else None, large)]
    case Sends(_) => [Send]
    case Skips => [Skip]
    case Forgets => [Evict]
    case OtherReader(at, built, now) => [OtherGet(at, AbsView(NumericViews.Adopt(j.r.store, built, now).1))]
    case OtherQuery(_) => []
    case OtherClient(_) => []
    case Registers(_, _) => [Register]
    case Greets => [Greet]
    case Takes => [TakeFrame]
    case Gets(_) => [FrameArrives]
    case Disconnects => [Disconnect]
    case Suspends => [Suspend]
    case Resumes => [Resume]
    case Asks => [Ask]
    case Reloads => [Reload]
    case Refreshes => [Fires]
    case Receives => [Receive]
    case Answers(young, built, now) => [Answer(young, AbsView(NumericViews.Adopt(j.r.store, built, now).1))]
    case Arrives(_) => [AnswerArrives]
    case Fails(_) => [Fail]
  }

  function Analysed(s: State, steps: seq<Step>): State { if steps == [] then s else Next(s, steps[0]) }

  /** Whether the request in flight still counts. */
  predicate Current(l: Loader.State) { l.current.Some? && l.current.value.ticket == l.sequence && !l.current.value.aborted }

  ghost function Protocol(c: Setting, j: Live, move: Move): Replication.System {
    match move
    case Turns(next, now, large) => Replication.Next(j.r, Replication.Push(c.key, next, now, large))
    case Forgets => Replication.Next(j.r, Replication.Forget(c.key))
    case OtherReader(_, built, now) => Replication.Next(j.r, Replication.Get(built, now))
    case Answers(young, built, now) =>
      if Waits(j.s) && FromCache(j.s, young) then j.r else Replication.Next(j.r, Replication.Get(built, now))
    case OtherQuery(step) => Replication.Next(j.r, step)
    case Gets(m) => if m.Some? then Replication.Next(j.r, Replication.PatchArrives(m.value)) else j.r
    case Arrives(v) => if Current(j.l) then Replication.Next(j.r, Replication.AnswerArrives(v)) else j.r
    case _ => j.r
  }

  function Broadcast(j: Live, move: Move): Hub.State {
    match move
    case Marks(full) => Hub.Next(j.h, Hub.Mark(full))
    case Begins => Hub.Next(j.h, Hub.Begin)
    case Sends(frame) => if j.s.round.Turned? && j.s.round.mine then Hub.Next(j.h, Hub.Send(j.id, frame)) else j.h
    case OtherClient(act) => Hub.Next(j.h, act)
    case Registers(id, client) => Hub.Next(j.h, Hub.Join(id, client))
    case Takes => Hub.Next(j.h, Hub.Take(j.id))
    case Disconnects => Hub.Next(j.h, Hub.Leave(j.id))
    case Suspends => Hub.Next(j.h, Hub.Leave(j.id))
    case Resumes => Hub.Next(j.h, Hub.Leave(j.id))
    case _ => j.h
  }

  /** Whether the page asks for a full answer on the next message, by what it really holds. */
  function AsksOn(j: Live, m: Option<Browser.Numbers>): bool
    requires j.s.wire != []
  {
    match j.s.wire[0]
    case Opened => j.s.page.wasOpen
    case Ready(n) => j.l.current.None? && (j.r.browser.None? || j.r.browser.value.head.dataRevision != n)
    case Resync => true
    case Numbers(_, _) => m.Some? && Browser.ApplyNumbers(j.r.browser, m.value).Resync?
  }

  function Loading(c: Setting, j: Live, move: Move): Loader.State {
    match move
    case Gets(m) => if j.s.wire != [] && AsksOn(j, m) then Loader.Next(j.l, Loader.Load(Loader.Call(c.query, false))) else j.l
    case Suspends => Loader.Next(j.l, Loader.Cancel)
    case Resumes => Loader.Next(j.l, Loader.Load(Loader.Call(c.query, true)))
    case Asks => Loader.Next(j.l, Loader.Load(Loader.Call(c.query, false)))
    case Reloads => Loader.Next(j.l, Loader.Load(Loader.Call(c.query, true)))
    case Refreshes => Loader.Next(j.l, Loader.Load(Loader.Call(c.query, false)))
    case Arrives(_) => Loader.Next(j.l, Loader.Settle(Loader.Data(c.query)))
    case Fails(timedOut) => Failing(j.l, timedOut)
    case _ => j.l
  }

  ghost function Moved(c: Setting, j: Live, move: Move): Live {
    if !Can(c, j, move) then j
    else
      Live(Analysed(j.s, StepOf(j, move)), Protocol(c, j, move), Broadcast(j, move),
           if move.Registers? then move.id else j.id, Loading(c, j, move))
  }

  /** Everything is quiet, and the page's first request is on its way. */
  function Outset(c: Setting, id: Hub.Channel): Live {
    Live(START, Replication.Start(c.epoch), Hub.QUIET, id, Loader.Next(Loader.IDLE, Loader.Load(Loader.Call(c.query, true))))
  }

  ghost function Run(c: Setting, id: Hub.Channel, moves: seq<Move>): Live {
    if moves == [] then Outset(c, id) else Moved(c, Run(c, id, moves[..|moves| - 1]), moves[|moves| - 1])
  }

  /** The run of the gap analysis that a joint run is. */
  ghost function Trace(c: Setting, id: Hub.Channel, moves: seq<Move>): seq<Step> {
    if moves == [] then []
    else
      var before, move := moves[..|moves| - 1], moves[|moves| - 1];
      var j := Run(c, id, before);
      Trace(c, id, before) + if Can(c, j, move) then StepOf(j, move) else []
  }

  /* ---- What is kept ---- */

  predicate Named(c: Setting, r: Replication.System) {
    c.epoch != "" && c.key != "" && r.epoch == c.epoch && (r.expected == "" || r.expected == c.epoch) && 0 <= r.store.sequence
  }

  /** The page holds the revision of the browser's view. */
  predicate Holds(c: Setting, p: Page, browser: Option<Snapshot>) {
    p.held == (if browser.Some? then browser.value.head.revision else 0) && (browser.Some? ==> OfQuery(c, browser.value.head))
  }

  /** The query's views carry their data revisions. */
  ghost predicate Dates(c: Setting, v: Views, h: Replication.History) {
    && 0 !in v.data
    && forall k :: k in h && k.0 == c.epoch && h[k].head.queryKey == c.key ==>
         1 <= k.1 && Browser.Safe(k.1) && k.1 in v.data && v.data[k.1] == h[k].head.dataRevision
  }

  ghost predicate Carries(c: Setting, r: Replication.System, frame: Frame) {
    match frame
    case Numbers(_, _) => exists m :: m in r.patches && OfQuery(c, m.head) && AbsNumbers(m) == frame
    case Ready(n) => 0 <= n
    case _ => true
  }

  ghost predicate Gave(c: Setting, r: Replication.System, revision: int) {
    exists v :: v in r.answers && OfQuery(c, v.head) && v.head.revision == revision
  }

  /** Every patch and every answer under way is one that was sent. */
  ghost predicate Messages(c: Setting, s: State, r: Replication.System) {
    && 0 <= s.sequence
    && (forall i :: 0 <= i < |s.wire| ==> Carries(c, r, s.wire[i]))
    && (s.slot.Some? ==> Carries(c, r, s.slot.value))
    && (s.round.Turned? && s.round.frame.Some? ==> Carries(c, r, s.round.frame.value))
    && (s.page.flight.Some? && s.page.flight.value.Answered? ==> Gave(c, r, s.page.flight.value.revision))
    && (forall n :: n in s.views.cache ==> Gave(c, r, s.views.cache[n]))
  }

  ghost predicate Joined(c: Setting, j: Live) {
    && Inv(j.s) && Replication.Inv(j.r) && Named(c, j.r)
    && Stores(j.s.views, j.r.store, c.key) && Hubs(j.s, j.h, j.id, c.decode) && Loads(j.s.page, j.l)
    && Holds(c, j.s.page, j.r.browser) && Dates(c, j.s.views, j.r.history) && Messages(c, j.s, j.r)
  }

  /* ---- The protocol's moves ---- */

  /** What ties the analysis to the protocol. */
  ghost predicate Tied(c: Setting, s: State, r: Replication.System) {
    Stores(s.views, r.store, c.key) && Dates(c, s.views, r.history) && Messages(c, s, r)
  }

  /** The protocol before a move. */
  ghost predicate Before(c: Setting, s: State, r: Replication.System) {
    Named(c, r) && Replication.StoreRecorded(r) && Tied(c, s, r)
  }

  lemma MessagesGrow(c: Setting, s: State, r: Replication.System, t: Replication.System)
    requires Messages(c, s, r) && r.patches <= t.patches && r.answers <= t.answers
    ensures Messages(c, s, t)
  {
  }

  lemma MoreMessages(c: Setting, r: Replication.System, t: Replication.System)
    requires r.patches <= t.patches && r.answers <= t.answers
    ensures forall f :: Carries(c, r, f) ==> Carries(c, t, f)
    ensures forall n :: Gave(c, r, n) ==> Gave(c, t, n)
  {
  }

  /** Adopting a view dates it. */
  lemma AdoptDates(c: Setting, v: Views, r: Replication.System, built: Snapshot, now: int)
    requires Dates(c, v, r.history) && Named(c, r) && Stores(v, r.store, c.key) && Replication.StoreRecorded(r)
    requires OfQuery(c, built.head) && Browser.Safe(r.store.sequence + 1)
    ensures var (after, w) := NumericViews.Adopt(r.store, built, now);
            Dates(c, Adopted(v, AbsView(w)), Replication.Recorded(r, after, w)) && OfQuery(c, w.head)
  {
    hide NumericViews.Stays, NumericViews.Later;
    assert c.key in r.store.entries ==> Replication.InHistory(r.history, r.store.entries[c.key].value);
  }

  lemma DatesAside(c: Setting, v: Views, h: Replication.History, w: Views)
    requires Dates(c, v, h) && w.data == v.data
    ensures Dates(c, w, h)
  {
  }

  lemma ReaderKeeps(c: Setting, s: State, r: Replication.System, at: int, built: Snapshot, now: int)
    requires Before(c, s, r) && Buildable(c, r, s.sequence, built) && at <= s.sequence
    ensures Tied(c, Next(s, OtherGet(at, AbsView(NumericViews.Adopt(r.store, built, now).1))), Replication.AfterGet(r, built, now))
  {
    hide NumericViews.Adopt, CanAdopt, Adopted, Stores, Dates, Carries, Gave, Replication.Built, Replication.StoreRecorded;
    GetCommutes(s, r.store, c.key, built, now, at);
    AdoptIsAdopted(s.views, r.store, c.key, built, now, s.sequence);
    AdoptDates(c, s.views, r, built, now);
    var (after, w) := NumericViews.Adopt(r.store, built, now);
    var t, next := Next(s, OtherGet(at, AbsView(w))), Replication.AfterGet(r, built, now);
    DatesAside(c, Adopted(s.views, AbsView(w)), next.history, t.views);
    MoreMessages(c, r, next);
    WasGiven(c, next, w);
  }

  lemma WasGiven(c: Setting, r: Replication.System, v: Snapshot)
    requires v in r.answers && OfQuery(c, v.head)
    ensures Gave(c, r, v.head.revision)
  {
  }

  lemma ServedKeeps(c: Setting, s: State, r: Replication.System, young: bool, built: Snapshot, now: int)
    requires Before(c, s, r) && Buildable(c, r, s.sequence, built) && Waits(s) && !FromCache(s, young)
    ensures Tied(c, Next(s, Answer(young, AbsView(NumericViews.Adopt(r.store, built, now).1))), Replication.AfterGet(r, built, now))
  {
    hide NumericViews.Adopt, CanAdopt, Adopted, Stores, Dates, Carries, Gave, Replication.Built, Replication.StoreRecorded;
    AnswerCommutes(s, r.store, c.key, built, now, young);
    AdoptIsAdopted(s.views, r.store, c.key, built, now, s.sequence);
    AdoptDates(c, s.views, r, built, now);
    var (after, w) := NumericViews.Adopt(r.store, built, now);
    var t, next := Next(s, Answer(young, AbsView(w))), Replication.AfterGet(r, built, now);
    DatesAside(c, Adopted(s.views, AbsView(w)), next.history, t.views);
    MoreMessages(c, r, next);
    WasGiven(c, next, w);
  }

  lemma CachedKeeps(c: Setting, s: State, r: Replication.System, young: bool, built: Built)
    requires Tied(c, s, r) && Waits(s) && FromCache(s, young)
    ensures Tied(c, Next(s, Answer(young, built)), r)
  {
    hide Stores, Dates, Carries, Gave;
  }

  lemma SameCache(v: Views, b: Built)
    ensures Adopted(v, b).cache == v.cache
  {
  }

  /** The turn of a publication that has a base to go by. */
  lemma TurnKeeps(c: Setting, s: State, r: Replication.System, built: Snapshot, now: int, large: bool)
    requires Before(c, s, r) && Buildable(c, r, s.sequence, built) && s.round.Copied? && c.key in r.store.entries
    ensures Tied(c, Next(s, Turn(Some(AbsView(NumericViews.Adopt(r.store, built, now).1)), large)),
                 Replication.AfterPush(r, c.key, Some(built), now, large))
  {
    hide NumericViews.Adopt, CanAdopt, Adopted, Stores, Dates, Carries, Gave, Replication.Built, Replication.StoreRecorded,
      NumericViews.Difference;
    TurnMoves(s, r.store, c.key, built, now, large);
    AdoptIsAdopted(s.views, r.store, c.key, built, now, s.sequence);
    AdoptDates(c, s.views, r, built, now);
    StoredBase(s.views, r.store, c.key);
    var (after, w) := NumericViews.Adopt(r.store, built, now);
    SameCache(s.views, AbsView(w));
    var t, next := Next(s, Turn(Some(AbsView(w)), large)), Replication.AfterPush(r, c.key, Some(built), now, large);
    DatesAside(c, Adopted(s.views, AbsView(w)), next.history, t.views);
    MoreMessages(c, r, next);
    Sent(c, next, r.store.entries[c.key].published, w);
  }

  /** A patch that was pushed is carried by its frame. */
  lemma Sent(c: Setting, r: Replication.System, before: Snapshot, after: Snapshot)
    requires OfQuery(c, after.head)
    ensures var m := NumericViews.Difference(before, after); m in r.patches ==> Carries(c, r, AbsNumbers(m))
    ensures Carries(c, r, Resync)
  {
    DifferenceOf(before, after);
    hide NumericViews.Difference;
  }

  lemma DifferenceOf(before: Snapshot, after: Snapshot)
    ensures var m := NumericViews.Difference(before, after); m.head == after.head && m.baseRevision == before.head.revision
  {
  }

  /** And of one that has not, or no view. */
  lemma IdleTurn(c: Setting, s: State, r: Replication.System, next: Option<Built>, large: bool)
    requires Tied(c, s, r) && s.round.Copied? && (next.None? || c.key !in r.store.entries)
    ensures Tied(c, Next(s, Turn(next, large)), r)
  {
    assert Carries(c, r, Resync);
    hide Dates, Carries, Gave;
  }

  lemma ForgetKeeps(c: Setting, s: State, r: Replication.System)
    requires Tied(c, s, r)
    ensures Tied(c, Next(s, Evict), Replication.Next(r, Replication.Forget(c.key)))
  {
    hide Stores, Dates, Carries, Gave;
    EvictCommutes(s, r.store, c.key);
    DatesAside(c, s.views, r.history, Next(s, Evict).views);
    MoreMessages(c, r, Replication.Next(r, Replication.Forget(c.key)));
  }

  lemma OtherQueryKeeps(c: Setting, s: State, r: Replication.System, step: Replication.Step)
    requires Before(c, s, r) && Elsewhere(c, step)
    ensures Tied(c, s, Replication.Next(r, step)) && Replication.Next(r, step).browser == r.browser
  {
    hide Carries, Gave, NumericViews.Stays, NumericViews.Difference, Replication.Built, Replication.StoreRecorded;
    MessagesGrow(c, s, r, Replication.Next(r, step));
  }

  lemma NameKeeps(c: Setting, r: Replication.System, step: Replication.Step)
    requires Named(c, r) && !step.Restart? && (step.Heartbeat? ==> step.epoch == c.epoch)
    ensures Named(c, Replication.Next(r, step))
  {
    hide NumericViews.Difference, NumericViews.Stays, Browser.ApplyNumbers, Browser.AcceptsSnapshot, Replication.Built;
  }

  /* ---- What reaches the page ---- */

  /** What the page goes by: the browser's view is recorded, and so is what was sent. */
  ghost predicate Shown(c: Setting, p: Page, r: Replication.System, v: Views) {
    Replication.Inv(r) && Named(c, r) && Holds(c, p, r.browser) && Dates(c, v, r.history)
  }

  /** The data revision that the page goes by is that of the browser's view. */
  lemma KnownData(c: Setting, p: Page, r: Replication.System, v: Views)
    requires Shown(c, p, r, v)
    ensures DataOf(v, p.held) == if r.browser.Some? then r.browser.value.head.dataRevision else -1
  {
    hide Replication.StoreRecorded, Replication.Genuine, DistinctKeys;
    if r.browser.Some? {
      var b := r.browser.value;
      assert b.head == r.history[(b.head.epoch, b.head.revision)].head;
    }
  }

  lemma Dated(c: Setting, r: Replication.System, v: Views, w: Snapshot)
    requires Replication.WellRecorded(r.history) && Dates(c, v, r.history) && Replication.InHistory(r.history, w)
    ensures DistinctKeys(w.sessions) && (OfQuery(c, w.head) ==> 1 <= w.head.revision && Browser.Safe(w.head.revision))
  {
    hide DistinctKeys;
  }

  lemma Unknown(p: Page, frame: Frame, known: int)
    requires frame.Numbers? && p.held == 0 < frame.base && 0 < frame.revision
    ensures Consume(p, frame, known) == AskFor(p)
  {
  }

  /** What the page's own reading of a patch makes of it is what the analysis makes of its frame. */
  lemma PatchReads(c: Setting, p: Page, r: Replication.System, v: Views, m: Browser.Numbers, known: int)
    requires Shown(c, p, r, v) && m in r.patches && OfQuery(c, m.head)
    ensures Consume(p, AbsNumbers(m), known) ==
            match Browser.ApplyNumbers(r.browser, m)
            case Ignored => p
            case Value(w) => p.(held := w.head.revision, failed := false)
            case Resync => AskFor(p)
    ensures Browser.ApplyNumbers(r.browser, m).Value? ==>
              && Browser.ApplyNumbers(r.browser, m).value.head == m.head
              && Browser.AcceptsSnapshot(r.browser, Browser.ApplyNumbers(r.browser, m).value, r.expected)
  {
    hide Replication.StoreRecorded, NumericViews.Alike, DistinctKeys, Consume, Browser.UpsertAll, Browser.Drop, NumericViews.Later,
      Dates, NumericViews.Difference;
    assert Replication.Genuine(r.history, m);
    var before, after :| Replication.PatchOf(r.history, m, before, after);
    DifferenceOf(before, after);
    Dated(c, r, v, before);
    Dated(c, r, v, after);
    if r.browser.Some? {
      PatchCommutes(p, r.browser.value, before, after, known);
    } else {
      Unknown(p, AbsNumbers(m), known);
    }
  }

  /** An answer: shown or rejected, as the protocol does. */
  lemma AnswerReads(c: Setting, p: Page, r: Replication.System, v: Views, w: Snapshot, visible: bool)
    requires Shown(c, p, r, v) && w in r.answers && OfQuery(c, w.head) && p.flight == Some(Answered(w.head.revision))
    ensures Holds(c, Arrived(p, visible), if p.dropped then r.browser else Replication.Next(r, Replication.AnswerArrives(w)).browser)
    ensures !p.dropped && visible && !Browser.AcceptsSnapshot(r.browser, w, r.expected) ==> Arrived(p, visible).refresh
  {
    hide Replication.StoreRecorded, NumericViews.Alike, DistinctKeys, Replication.Genuine, Dates, Arrived, Browser.AcceptsSnapshot;
    Dated(c, r, v, w);
    ArrivalCommutes(p, r.browser, w, r.expected, visible);
  }

  /* ---- Moves that leave the protocol alone ---- */

  lemma RoundAside(c: Setting, s: State, r: Replication.System, step: Step)
    requires Tied(c, s, r)
    requires step.Mark? || step.Begin? || step.Send? || step.Skip? || step.Register? || step.Greet? || step.TakeFrame? || step.Disconnect?
    ensures Tied(c, Next(s, step), r)
  {
    hide Stores, Dates, Gave;
  }

  predicate Paged(step: Step) { OfPage(step) || step.Suspend? || step.Resume? || step.FrameArrives? }

  /** The page asks for nothing that it has not sent for, and is given nothing. */
  ghost predicate Awaits(s: State, t: State) {
    && t.views == s.views && t.sequence == s.sequence
    && (t.page.flight.Some? && t.page.flight.value.Answered? ==> t.page.flight == s.page.flight)
    && (t.round.Turned? ==> s.round.Turned? && t.round.frame == s.round.frame)
    && (t.slot.Some? ==> t.slot == s.slot) && (t.wire == [] || t.wire == s.wire || (s.wire != [] && t.wire == s.wire[1..]))
  }

  lemma StreamAwaits(s: State, step: Step)
    requires step.Suspend? || step.Resume? || step.FrameArrives?
    ensures Awaits(s, Next(s, step))
  {
    hide DataOf;
  }

  lemma RequestAwaits(s: State, step: Step)
    requires OfPage(step)
    ensures Awaits(s, Next(s, step))
  {
  }

  lemma PageAside(c: Setting, s: State, r: Replication.System, step: Step)
    requires Tied(c, s, r) && Paged(step)
    ensures Tied(c, Next(s, step), r)
  {
    hide Stores, Dates, Gave, Carries, Next;
    if OfPage(step) {
      RequestAwaits(s, step);
    } else {
      StreamAwaits(s, step);
    }
  }

  predicate HubAside(step: Step) {
    step.Turn? || step.Skip? || step.Evict? || step.OtherGet? || step.Greet? || step.FrameArrives? || step.Ask? || step.Reload?
    || step.Fires? || step.Receive? || step.Answer? || step.AnswerArrives? || step.Fail?
  }

  lemma HubKeeps(s: State, h: Hub.State, id: Hub.Channel, decode: Decoder, step: Step)
    requires Hubs(s, h, id, decode) && HubAside(step)
    ensures Hubs(Next(s, step), h, id, decode)
  {
    hide Consume, Arrived, AskFor, Reloaded, Failed, Adopted, CanAdopt;
  }

  /* ---- Every joint run ---- */

  lemma AnalysisMoves(c: Setting, j: Live, move: Move)
    requires Inv(j.s)
    ensures Inv(Analysed(j.s, StepOf(j, move)))
  {
    hide Inv, Next, NumericViews.Adopt;
    var steps := StepOf(j, move);
    if steps != [] {
      NextKeeps(j.s, steps[0]);
    }
  }

  lemma ProtocolMoves(c: Setting, j: Live, move: Move)
    requires Joined(c, j) && Can(c, j, move)
    ensures Replication.Inv(Protocol(c, j, move)) && Named(c, Protocol(c, j, move))
  {
    hide Inv, Next, Replication.Inv, Replication.Next, Named, Stores, Hubs, Loads, Holds, Dates, Messages;
    forall step: Replication.Step ensures Replication.Inv(Replication.Next(j.r, step)) {
      Replication.NextKeeps(j.r, step);
    }
    forall step: Replication.Step | !step.Restart? && (step.Heartbeat? ==> step.epoch == c.epoch)
      ensures Named(c, Replication.Next(j.r, step))
    {
      NameKeeps(c, j.r, step);
    }
  }

  lemma TiesMove(c: Setting, j: Live, move: Move)
    requires Joined(c, j) && Can(c, j, move)
    ensures Tied(c, Analysed(j.s, StepOf(j, move)), Protocol(c, j, move))
  {
    hide Inv, Next, NumericViews.Adopt, Replication.Inv, Replication.AfterGet, Replication.AfterPush, Stores, Dates, Messages, Loads, Holds;
    Recording(c, j);
    match move
    case Turns(next, now, large) =>
      if next.Some? && c.key in j.r.store.entries {
        TurnKeeps(c, j.s, j.r, next.value, now, large);
      } else {
        Replication.IdlePush(j.r, c.key, next, now, large);
        IdleTurn(c, j.s, j.r, StepOf(j, move)[0].next, large);
      }
    case Forgets => ForgetKeeps(c, j.s, j.r);
    case OtherReader(at, built, now) => ReaderKeeps(c, j.s, j.r, at, built, now);
    case Answers(young, built, now) =>
      if FromCache(j.s, young) {
        CachedKeeps(c, j.s, j.r, young, StepOf(j, move)[0].built);
      } else {
        ServedKeeps(c, j.s, j.r, young, built, now);
      }
    case OtherQuery(step) => OtherQueryKeeps(c, j.s, j.r, step);
    case OtherClient(_) =>
    case Gets(m) =>
      PageAside(c, j.s, j.r, FrameArrives);
      if m.Some? {
        BrowserAside(c, Next(j.s, FrameArrives), j.r, Replication.PatchArrives(m.value));
      }
    case Arrives(v) =>
      PageAside(c, j.s, j.r, AnswerArrives);
      BrowserAside(c, Next(j.s, AnswerArrives), j.r, Replication.AnswerArrives(v));
    case _ =>
      var step := StepOf(j, move)[0];
      if Paged(step) {
        PageAside(c, j.s, j.r, step);
      } else {
        RoundAside(c, j.s, j.r, step);
      }
  }

  lemma Recording(c: Setting, j: Live)
    requires Joined(c, j)
    ensures Before(c, j.s, j.r) && j.s.sequence == j.h.sequence
  {
    hide Replication.StoreRecorded, Inv, Stores, Dates, Messages, Loads, Holds;
  }

  /** What the browser makes of a message leaves the server's side alone. */
  lemma BrowserAside(c: Setting, s: State, r: Replication.System, step: Replication.Step)
    requires Tied(c, s, r) && (step.PatchArrives? || step.AnswerArrives?)
    ensures Tied(c, s, Replication.Next(r, step))
  {
    hide Stores, Dates, Carries, Gave, Browser.ApplyNumbers, Browser.AcceptsSnapshot;
    MoreMessages(c, r, Replication.Next(r, step));
  }

  lemma HubsMove(c: Setting, j: Live, move: Move)
    requires Joined(c, j) && Can(c, j, move)
    ensures Hubs(Analysed(j.s, StepOf(j, move)), Broadcast(j, move), if move.Registers? then move.id else j.id, c.decode)
  {
    hide Next, Hub.Next, NumericViews.Adopt, Replication.Inv, Stores, Dates, Messages, Loads, Holds, Named, Hubs, Given;
    MineIsSubscribed(j.s, j.h, j.id, c.decode);
    match move
    case Marks(full) => MarkCommutes(j.s, j.h, j.id, c.decode, full);
    case Begins => BeginHub(j.s, j.h, j.id, c.decode);
    case Sends(frame) => SendCommutes(j.s, j.h, j.id, c.decode, frame);
    case Registers(id, client) => RegisterCommutes(j.s, j.h, j.id, id, client, c.decode);
    case Takes => TakeHub(j.s, j.h, j.id, c.decode);
    case Disconnects => LeaveCommutes(j.s, j.h, j.id, c.decode, Disconnect);
    case Suspends => LeaveCommutes(j.s, j.h, j.id, c.decode, Suspend);
    case Resumes => LeaveCommutes(j.s, j.h, j.id, c.decode, Resume);
    case OtherQuery(_) =>
    case OtherClient(act) => OtherKeeps(j.s, j.h, j.id, c.decode, act);
    case _ => HubKeeps(j.s, j.h, j.id, c.decode, StepOf(j, move)[0]);
  }

  lemma MineIsSubscribed(s: State, h: Hub.State, id: Hub.Channel, decode: Decoder)
    requires Channel(s) && Hubs(s, h, id, decode)
    ensures s.round.Turned? && s.round.mine ==> id in h.clients
    ensures s.stream.Closed? ==> s.slot.None?
  {
    hide Frames;
  }

  lemma BeginHub(s: State, h: Hub.State, id: Hub.Channel, decode: Decoder)
    requires Hubs(s, h, id, decode) && s.round.Idle?
    ensures Hubs(Next(s, Begin), Hub.Next(h, Hub.Begin), id, decode)
  {
    BeginCommutes(s, h, id, decode);
  }

  lemma TakeHub(s: State, h: Hub.State, id: Hub.Channel, decode: Decoder)
    requires Hubs(s, h, id, decode) && s.stream.Streaming?
    ensures Hubs(Next(s, TakeFrame), Hub.Next(h, Hub.Take(id)), id, decode)
  {
    if h.slots[id].Some? {
      TakeCommutes(s, h, id, decode);
    }
  }

  lemma OtherKeeps(s: State, h: Hub.State, id: Hub.Channel, decode: Decoder, act: Hub.Step)
    requires Hubs(s, h, id, decode) && !Concerns(act, id)
    ensures Hubs(s, Hub.Next(h, act), id, decode)
  {
  }

  lemma Showing(c: Setting, j: Live)
    requires Joined(c, j)
    ensures Shown(c, j.s.page, j.r, j.s.views)
  {
    hide Inv, Replication.Inv, Stores, Hubs, Dates, Messages, Loads, Holds, Named;
  }

  /** A page that waits for the same request. */
  lemma SameRequest(p: Page, q: Page, l: Loader.State)
    requires Loads(p, l) && (q.flight.Some? <==> p.flight.Some?) && q.trailing == p.trailing && q.dropped == p.dropped
    requires q.failed ==> p.failed
    ensures Loads(q, l)
  {
  }

  lemma AskHolds(p: Page)
    ensures AskFor(p).held == p.held
  {
  }

  /** The page's own reading of a patch decides as the analysis does. */
  lemma PatchMoves(c: Setting, j: Live, m: Browser.Numbers)
    requires Joined(c, j) && Can(c, j, Gets(Some(m)))
    ensures PageKept(c, j, Gets(Some(m)))
  {
    hide Inv, Replication.Inv, Stores, Hubs, Dates, Browser.ApplyNumbers, Browser.AcceptsSnapshot, Loader.Next, Loads, Named, AskFor,
      Messages, Consume;
    var known := DataOf(j.s.views, j.s.page.held);
    Showing(c, j);
    PatchReads(c, j.s.page, j.r, j.s.views, m, known);
    AskCommutes(j.s.page, j.l, c.query);
    AskHolds(j.s.page);
    var outcome := Browser.ApplyNumbers(j.r.browser, m);
    if outcome.Value? {
      SameRequest(j.s.page, j.s.page.(held := outcome.value.head.revision, failed := false), j.l);
    }
  }

  /** And so does its test on any other message. */
  lemma SignalMoves(c: Setting, j: Live)
    requires Joined(c, j) && Can(c, j, Gets(None))
    ensures PageKept(c, j, Gets(None))
  {
    hide Inv, Replication.Inv, Stores, Hubs, Dates, Loader.Next, Loads, Named, AskFor, Messages;
    Showing(c, j);
    KnownData(c, j.s.page, j.r, j.s.views);
    Requests(j.s.page, j.l);
    AskCommutes(j.s.page, j.l, c.query);
    AskHolds(j.s.page);
    SameRequest(j.s.page, j.s.page.(wasOpen := true), j.l);
    if j.s.wire[0].Ready? {
      NotBefore(c, j);
    }
  }

  lemma Requests(p: Page, l: Loader.State)
    requires Loads(p, l)
    ensures p.flight.Some? <==> l.current.Some?
  {
  }

  lemma NotBefore(c: Setting, j: Live)
    requires Joined(c, j) && j.s.wire != [] && j.s.wire[0].Ready?
    ensures 0 <= j.s.wire[0].sequence
  {
    hide Inv, Replication.Inv, Stores, Hubs, Dates, Loads, Named, Holds;
    assert Carries(c, j.r, j.s.wire[0]);
  }

  lemma SamePage(s: State, step: Step)
    requires !Paged(step) && !step.Answer?
    ensures Next(s, step).page == s.page
  {
    hide CanAdopt, Adopted;
  }

  lemma PageHolds(p: Page)
    ensures AskFor(p).held == p.held == Reloaded(p).held == Cancelled(p).held == Failed(p).held
  {
  }

  /** The server's own moves do not touch the browser. */
  lemma BrowserStays(r: Replication.System, step: Replication.Step)
    requires !step.AnswerArrives? && !step.PatchArrives?
    ensures Replication.Next(r, step).browser == r.browser
  {
    hide NumericViews.Adopt, NumericViews.Publish, Replication.Built;
  }

  /** The page and the loader after a move. */
  ghost predicate PageKept(c: Setting, j: Live, move: Move) {
    var p := Analysed(j.s, StepOf(j, move)).page;
    Loads(p, Loading(c, j, move)) && Holds(c, p, Protocol(c, j, move).browser)
  }

  lemma AskMoves(c: Setting, j: Live, move: Move)
    requires Joined(c, j) && Can(c, j, move) && (move.Asks? || move.Reloads? || move.Refreshes?)
    ensures PageKept(c, j, move)
  {
    hide Inv, Replication.Inv, Stores, Hubs, Dates, Messages, NumericViews.Adopt, Loader.Next, Loads, Named, Replication.Next, Failing,
      AskFor, Reloaded, Cancelled, Failed, Replication.Built;
    PageHolds(j.s.page);
    match move
    case Asks => AskCommutes(j.s.page, j.l, c.query);
    case Reloads => ReloadCommutes(j.s.page, j.l, c.query);
    case Refreshes =>
      SameRequest(j.s.page, j.s.page.(refresh := false), j.l);
      PageHolds(j.s.page.(refresh := false));
      AskCommutes(j.s.page.(refresh := false), j.l, c.query);
    case _ =>
  }

  lemma StopMoves(c: Setting, j: Live, move: Move)
    requires Joined(c, j) && Can(c, j, move) && (move.Suspends? || move.Resumes?)
    ensures PageKept(c, j, move)
  {
    hide Inv, Replication.Inv, Stores, Hubs, Dates, Messages, NumericViews.Adopt, Loader.Next, Loads, Named, Replication.Next, Failing,
      AskFor, Reloaded, Cancelled, Failed, Replication.Built;
    PageHolds(j.s.page);
    match move
    case Suspends => CancelCommutes(j.s.page, j.l);
    case Resumes =>
      SameRequest(j.s.page, j.s.page.(wasOpen := false), j.l);
      PageHolds(j.s.page.(wasOpen := false));
      ReloadCommutes(j.s.page.(wasOpen := false), j.l, c.query);
    case _ =>
  }

  lemma RequestMoves(c: Setting, j: Live, move: Move)
    requires Joined(c, j) && Can(c, j, move) && (move.Fails? || move.Receives?)
    ensures PageKept(c, j, move)
  {
    hide Inv, Replication.Inv, Stores, Hubs, Dates, Messages, NumericViews.Adopt, Loader.Next, Loads, Named, Replication.Next, Failing,
      AskFor, Reloaded, Cancelled, Failed, Replication.Built;
    PageHolds(j.s.page);
    match move
    case Fails(timedOut) =>
      Requests(j.s.page, j.l);
      FailCommutes(j.s.page, j.l, timedOut);
    case Receives => SameRequest(j.s.page, Next(j.s, Receive).page, j.l);
    case _ =>
  }

  lemma PageMoves(c: Setting, j: Live, move: Move)
    requires Joined(c, j) && Can(c, j, move)
    ensures PageKept(c, j, move)
  {
    hide Inv, Replication.Inv, Stores, Hubs, Dates, Messages, NumericViews.Adopt, Loader.Next, Loads, Named, Replication.Next, Failing, Next,
      Replication.Built, Waits, FromCache, PageKept, Holds;
    match move
    case Gets(m) => if m.Some? { PatchMoves(c, j, m.value); } else { SignalMoves(c, j); }
    case Suspends => StopMoves(c, j, move);
    case Resumes => StopMoves(c, j, move);
    case Asks => AskMoves(c, j, move);
    case Reloads => AskMoves(c, j, move);
    case Refreshes => AskMoves(c, j, move);
    case Arrives(v) => ArrivalMoves(c, j, v);
    case Fails(_) => RequestMoves(c, j, move);
    case Receives => RequestMoves(c, j, move);
    case Answers(_, _, _) => AnswerMoves(c, j, move);
    case _ => ServerMoves(c, j, move);
  }

  predicate OfServer(move: Move) {
    move.Marks? || move.Begins? || move.Turns? || move.Sends? || move.Skips? || move.Forgets? || move.OtherReader? || move.OtherQuery?
    || move.OtherClient? || move.Registers? || move.Greets? || move.Takes? || move.Disconnects?
  }

  lemma ServerMoves(c: Setting, j: Live, move: Move)
    requires Joined(c, j) && OfServer(move) && Can(c, j, move)
    ensures PageKept(c, j, move)
  {
    hide Inv, Replication.Inv, Stores, Hubs, Dates, Messages, NumericViews.Adopt, Loads, Named, Replication.Next, Next, Protocol;
    ServerStays(c, j, move);
    var steps := StepOf(j, move);
    if steps != [] {
      SamePage(j.s, steps[0]);
    }
  }

  lemma ServerStays(c: Setting, j: Live, move: Move)
    requires !move.Gets? && !move.Arrives? && (move.OtherQuery? ==> !move.step.AnswerArrives? && !move.step.PatchArrives?)
    ensures Protocol(c, j, move).browser == j.r.browser
  {
    hide Replication.Next;
    forall step: Replication.Step | !step.AnswerArrives? && !step.PatchArrives? ensures Replication.Next(j.r, step).browser == j.r.browser {
      BrowserStays(j.r, step);
    }
  }

  lemma AnswerFlies(s: State, step: Step)
    requires step.Answer? && Waits(s)
    ensures var p := Next(s, step).page; p == s.page.(flight := p.flight) && p.flight.Some?
  {
    hide CanAdopt, Adopted;
  }

  lemma AnswerMoves(c: Setting, j: Live, move: Move)
    requires Joined(c, j) && Can(c, j, move) && move.Answers?
    ensures PageKept(c, j, move)
  {
    hide Inv, Replication.Inv, Stores, Hubs, Dates, Messages, NumericViews.Adopt, Loads, Named, Next, Protocol, Replication.Built;
    var step := StepOf(j, move)[0];
    AnswerFlies(j.s, step);
    ServerStays(c, j, move);
    SameRequest(j.s.page, Next(j.s, step).page, j.l);
  }

  lemma ArrivalMoves(c: Setting, j: Live, v: Snapshot)
    requires Joined(c, j) && Can(c, j, Arrives(v))
    ensures PageKept(c, j, Arrives(v))
  {
    hide Inv, Replication.Inv, Stores, Hubs, Dates, Messages, Loader.Next, Loads, Named, Browser.AcceptsSnapshot, Arrived;
    Showing(c, j);
    Counts(j.s.page, j.l);
    SettleCommutes(j.s.page, j.l, c.query, !j.s.stream.Off?);
    AnswerReads(c, j.s.page, j.r, j.s.views, v, !j.s.stream.Off?);
  }

  lemma Counts(p: Page, l: Loader.State)
    requires Loads(p, l) && p.flight.Some?
    ensures Current(l) <==> !p.dropped
  {
  }

  lemma {:induction false} MoveKeeps(c: Setting, j: Live, move: Move)
    requires Joined(c, j)
    ensures Joined(c, Moved(c, j, move))
  {
    hide Can, StepOf, Analysed, Protocol, Broadcast, Loading, Inv, Replication.Inv, Stores, Dates, Messages, Hubs, Loads, Holds, Named;
    if Can(c, j, move) {
      AnalysisMoves(c, j, move);
      ProtocolMoves(c, j, move);
      TiesMove(c, j, move);
      HubsMove(c, j, move);
      PageMoves(c, j, move);
    }
  }

  lemma Sets(c: Setting, id: Hub.Channel)
    requires c.epoch != "" && c.key != ""
    ensures Joined(c, Outset(c, id))
  {
    AtStart();
    Replication.InvAlways(c.epoch, []);
  }

  /** Along every joint run, store, hub, loader and page are what the gap analysis takes them for, and the analysis has taken
      exactly the steps of its trace. */
  lemma {:induction false} Joins(c: Setting, id: Hub.Channel, moves: seq<Move>)
    requires c.epoch != "" && c.key != ""
    ensures Joined(c, Run(c, id, moves)) && Run(c, id, moves).s == Delivery.Run(Trace(c, id, moves))
  {
    hide Joined, Moved, Can, StepOf, Outset, Next;
    if moves == [] {
      Sets(c, id);
      assert Run(c, id, moves).s == START by { Start(c, id); }
    } else {
      var before, move := moves[..|moves| - 1], moves[|moves| - 1];
      Joins(c, id, before);
      MoveKeeps(c, Run(c, id, before), move);
      Traced(c, id, moves);
    }
  }

  lemma Start(c: Setting, id: Hub.Channel)
    ensures Outset(c, id).s == START
  {
  }

  lemma OneMore(trace: seq<Step>, steps: seq<Step>)
    requires |steps| <= 1
    ensures Delivery.Run(trace + steps) == Analysed(Delivery.Run(trace), steps)
  {
    hide Next;
    if steps == [] {
      assert trace + steps == trace;
    } else {
      assert (trace + steps)[..|trace|] == trace;
    }
  }

  lemma AtMostOne(j: Live, move: Move)
    ensures |StepOf(j, move)| <= 1
  {
    hide NumericViews.Adopt;
  }

  lemma Traced(c: Setting, id: Hub.Channel, moves: seq<Move>)
    requires moves != [] && Run(c, id, moves[..|moves| - 1]).s == Delivery.Run(Trace(c, id, moves[..|moves| - 1]))
    ensures Run(c, id, moves).s == Delivery.Run(Trace(c, id, moves))
  {
    hide Can, Next, StepOf, Protocol, Broadcast, Loading, Analysed, Delivery.Run;
    var before, move := moves[..|moves| - 1], moves[|moves| - 1];
    var j, trace := Run(c, id, before), Trace(c, id, before);
    if Can(c, j, move) {
      AtMostOne(j, move);
      OneMore(trace, StepOf(j, move));
    } else {
      assert trace + [] == trace;
    }
  }

  /** Whatever is under way can arrive: the analysis waits for nothing that was not sent. */
  lemma SentCanArrive(c: Setting, id: Hub.Channel, moves: seq<Move>)
    requires c.epoch != "" && c.key != ""
    ensures var j := Run(c, id, moves);
            && (j.s.wire != [] ==> exists m :: Can(c, j, Gets(m)))
            && (j.s.page.flight.Some? && j.s.page.flight.value.Answered? ==> exists v :: Can(c, j, Arrives(v)))
  {
    hide Run, Trace, Inv, Replication.Inv, Stores, Hubs, Dates, Loads, Holds, Named;
    Joins(c, id, moves);
    var j := Run(c, id, moves);
    if j.s.wire != [] {
      assert Carries(c, j.r, j.s.wire[0]);
      if j.s.wire[0].Numbers? {
        var m :| m in j.r.patches && OfQuery(c, m.head) && AbsNumbers(m) == j.s.wire[0];
        assert Can(c, j, Gets(Some(m)));
      } else {
        assert Can(c, j, Gets(None));
      }
    }
    if j.s.page.flight.Some? && j.s.page.flight.value.Answered? {
      var v :| v in j.r.answers && OfQuery(c, v.head) && v.head.revision == j.s.page.flight.value.revision;
      assert Can(c, j, Arrives(v));
    }
  }

  /** A gap in terms of the parts: the browser is subscribed and shows a view older than the last one sent out, which was read
      no earlier than the hub's present sequence; its slot and stream are empty; its loader is idle; no refresh is due. */
  ghost predicate Unnoticed(j: Live) {
    && j.id in j.h.clients && j.id in j.h.slots && j.h.slots[j.id].None? && j.s.wire == [] && !j.s.stream.Greeting?
    && !(j.s.round.Turned? && j.s.round.mine && j.s.round.frame.Some?)
    && j.r.browser.Some? && j.r.browser.value.head.revision < j.s.views.published
    && j.h.sequence <= j.r.browser.value.head.dataRevision
    && j.l.current.None? && !j.s.page.refresh && !j.s.page.failed
  }

  lemma UnnoticedIsGap(c: Setting, j: Live)
    requires Joined(c, j)
    ensures Unnoticed(j) <==> !NoSilentGap(j.s)
  {
    Showing(c, j);
    KnownData(c, j.s.page, j.r, j.s.views);
    hide Inv, Replication.Inv, Stores, Dates, DataOf, Named;
  }

  /** No joint run comes to an unnoticed gap but through one of the three. */
  lemma GapsHaveCause(c: Setting, id: Hub.Channel, moves: seq<Move>)
    requires c.epoch != "" && c.key != "" && Unnoticed(Run(c, id, moves))
    ensures exists i :: 0 <= i < |Trace(c, id, moves)| && Opens(Delivery.Run(Trace(c, id, moves)[..i]), Trace(c, id, moves)[i])
  {
    hide Run, Trace, Joined, NoSilentGap, Opens, Delivery.Run, Unnoticed;
    var trace := Trace(c, id, moves);
    Joins(c, id, moves);
    UnnoticedIsGap(c, Run(c, id, moves));
    NoGapExactly(trace);
    assert trace[..|trace|] == trace && !GapFree(Delivery.Run(trace[..|trace|]));
  }
}
