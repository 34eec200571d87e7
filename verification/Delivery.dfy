/** Whether a subscribed browser can miss a published view without noticing: the publisher, whose turn and sends come
    apart, the one-slot channel, the wire, the page with its single-flight loader and refresh timer, and the short-lived
    cache of full answers (hub.go, numeric_stream.go, snapshot_cache.go, web/app.js), for one query in one run of the
    server, down to revisions. */
module Delivery {
  import opened Wrappers

  // What comes down a stream: the browser notices that it is open, then the greeting, then frames.
  datatype Frame = Opened | Ready(sequence: int) | Numbers(base: int, revision: int) | Resync

  // A full request; once received it knows the hub's sequence, by which answers are cached.
  datatype Flight = Sent | Received(sequence: int) | Answered(revision: int)

  // A view that was built and adopted: its revision and the hub's sequence that its reader pinned.
  datatype Built = Built(revision: int, data: int)

  // No event source while the page is suspended; otherwise not yet registered with the hub, registered, or greeted.
  datatype Stream = Off | Closed | Greeting | Streaming

  // A publication: clients copied, then the query's turn taken. `mine`: the browser's channel is among the copied ones.
  datatype Round = Idle | Copied(mine: bool) | Turned(mine: bool, frame: Option<Frame>)

  // The query's views on the server.
  datatype Views = Views(
    view: int,                 // the largest revision given to this query so far
    data: map<int, int>,       // the data revision of each of them
    base: Option<int>,         // the revision of the published base; None while the view is evicted
    published: int,            // the last revision that went out in a frame
    cache: map<int, int>)      // short-lived encoded answers, by sequence

  datatype Page = Page(
    wasOpen: bool,             // this event source was open before
    held: int,
    flight: Option<Flight>,
    dropped: bool,             // the request in flight was replaced or cancelled: its outcome is thrown away
    trailing: bool,            // another request follows the one in flight
    refresh: bool,             // the refresh timer is armed
    failed: bool)              // the last request failed, and the page says so

  datatype State = State(
    sequence: int,             // the hub's sequence
    dirty: bool,
    round: Round,
    views: Views,
    stream: Stream,
    slot: Option<Frame>,
    wire: seq<Frame>,
    page: Page)

  const NO_VIEWS := Views(0, map[], None, 0, map[])

  /** The page has just started: its first request and its stream are on their way, in either order. */
  const START := State(0, false, Idle, NO_VIEWS, Closed, None, [], Page(false, 0, Some(Sent), false, false, false, false))

  datatype Step =
    | Mark
    | Begin
    | Turn(next: Option<Built>, large: bool)  // None: the database is unavailable
    | Send
    | Skip                                    // no copied client has this query
    | Evict
    | OtherGet(at: int, built: Built)
    | Register
    | Greet
    | TakeFrame                               // the connection writes the waiting frame
    | FrameArrives
    | Disconnect                              // the event source will open again by itself
    | Suspend                                 // the page is hidden or offline: it drops its stream and its request
    | Resume                                  // a new event source, and a request that replaces what is under way
    | Ask                                     // a heartbeat or a timer asks
    | Reload                                  // by hand, replacing the request under way
    | Fires                                   // the refresh timer
    | Receive
    | Answer(young: bool, built: Built)       // from the cache when it is young enough, or newly built
    | AnswerArrives
    | Fail

  /* ---- The page ---- */

  function AskFor(p: Page): Page {
    if p.flight.None? then p.(flight := Some(Sent), failed := false) else p.(trailing := true)
  }

  function Reloaded(p: Page): Page {
    if p.flight.None? then p.(flight := Some(Sent), failed := false, refresh := false)
    else p.(trailing := true, dropped := true, refresh := false)
  }

  function Cancelled(p: Page): Page {
    p.(trailing := false, dropped := p.flight.Some?, refresh := false)
  }

  /** The request in flight is over; the trailing one, if any, begins. */
  function Over(p: Page): Page {
    if p.trailing then p.(flight := Some(Sent), dropped := false, trailing := false, failed := false)
    else p.(flight := None, dropped := false)
  }

  /** An answer older than what the page holds is rejected, and a visible page arms its refresh timer. */
  function Arrived(p: Page, visible: bool): Page {
    if p.flight.None? || !p.flight.value.Answered? then p
    else if p.dropped then Over(p)
    else if p.held <= p.flight.value.revision then Over(p.(held := p.flight.value.revision, failed := false))
    else Over(p.(refresh := p.refresh || visible))
  }

  function Failed(p: Page): Page {
    if p.flight.None? then p else Over(p.(failed := !p.dropped))
  }

  /** What the page makes of a frame; `known` is the data revision of the view it holds. */
  function Consume(p: Page, frame: Frame, known: int): Page {
    match frame
    case Opened => if p.wasOpen then AskFor(p) else p.(wasOpen := true)
    case Ready(n) => if p.flight.None? && known != n then AskFor(p) else p
    case Resync => AskFor(p)
    case Numbers(base, revision) =>
      if revision <= p.held then p
      else if base == p.held then p.(held := revision, failed := false)
      else AskFor(p)
  }

  /* ---- The server ---- */

  function DataOf(v: Views, revision: int): int { if revision in v.data then v.data[revision] else -1 }

  /** The store either keeps its view or gives the built one a new revision, not read earlier than the stored one. */
  predicate CanAdopt(v: Views, b: Built, sequence: int) {
    || (b.revision == v.view && v.base.Some?)
    || (v.view < b.revision && b.data <= sequence && (v.base.Some? ==> DataOf(v, v.view) <= b.data))
  }

  /** An unpublished view becomes its own base. */
  function Adopted(v: Views, b: Built): Views {
    v.(view := b.revision, base := if v.base.Some? then v.base else Some(b.revision),
       data := if b.revision == v.view then v.data else v.data[b.revision := b.data])
  }

  /** The query's turn: adopt, and move the published base. Nothing is sent yet. */
  function TurnTaken(s: State, next: Option<Built>, large: bool): State
    requires s.round.Copied?
  {
    var v := s.views;
    if v.base.None? || next.None? then s.(round := Turned(s.round.mine, Some(Resync)))
    else if !CanAdopt(v, next.value, s.sequence) then s
    else if v.base.value == next.value.revision then s.(views := Adopted(v, next.value), round := Turned(s.round.mine, None))
    else
      var n := next.value.revision;
      s.(views := Adopted(v, next.value).(base := Some(n), published := n),
         round := Turned(s.round.mine, Some(if large then Resync else Numbers(v.base.value, n))))
  }

  function SentOut(s: State): State
    requires s.round.Turned?
  {
    s.(slot := if s.round.mine && s.round.frame.Some? then s.round.frame else s.slot, round := Idle)
  }

  predicate Waits(s: State) { s.page.flight.Some? && s.page.flight.value.Received? }

  function FromCache(s: State, young: bool): bool
    requires Waits(s)
  {
    young && s.page.flight.value.sequence in s.views.cache
  }

  function Served(s: State, young: bool, built: Built): State
    requires Waits(s)
  {
    var n := s.page.flight.value.sequence;
    if FromCache(s, young) then s.(page := s.page.(flight := Some(Answered(s.views.cache[n]))))
    else if !CanAdopt(s.views, built, s.sequence) then s
    else
      s.(views := Adopted(s.views, built).(cache := s.views.cache[n := built.revision]),
         page := s.page.(flight := Some(Answered(built.revision))))
  }

  /** Whatever was on the stream is gone, and a publication under way no longer reaches the browser. */
  function Hung(s: State, stream: Stream): State {
    s.(stream := stream, slot := None, wire := [],
       round := match s.round case Idle => Idle case Copied(_) => Copied(false) case Turned(_, frame) => Turned(false, frame))
  }

  /** One step; a step that cannot happen changes nothing. */
  function Next(s: State, step: Step): State {
    match step
    case Mark => s.(sequence := s.sequence + 1, dirty := true)
    case Begin => if s.dirty && s.round.Idle? then s.(dirty := false, round := Copied(Subscribed(s))) else s
    case Turn(next, large) => if s.round.Copied? then TurnTaken(s, next, large) else s
    case Send => if s.round.Turned? then SentOut(s) else s
    case Skip => if s.round == Copied(false) then s.(round := Idle) else s
    case Evict => s.(views := s.views.(base := None))
    case OtherGet(at, built) =>
      if at <= s.sequence && CanAdopt(s.views, built, s.sequence) then
        s.(views := Adopted(s.views, built).(cache := s.views.cache[at := built.revision]))
      else s
    case Register => if s.stream.Closed? then s.(stream := Greeting) else s
    case Greet => if s.stream.Greeting? then s.(stream := Streaming, wire := [Opened, Ready(s.sequence)]) else s
    case TakeFrame => if s.stream.Streaming? && s.slot.Some? then s.(slot := None, wire := s.wire + [s.slot.value]) else s
    case FrameArrives =>
      if s.wire == [] then s
      else s.(wire := s.wire[1..], page := Consume(s.page, s.wire[0], DataOf(s.views, s.page.held)))
    case Disconnect => if s.stream.Off? then s else Hung(s, Closed)
    case Suspend => Hung(s, Off).(page := Cancelled(s.page))
    case Resume => Hung(s, Closed).(page := Reloaded(s.page.(wasOpen := false)))
    case Ask => s.(page := AskFor(s.page))
    case Reload => s.(page := Reloaded(s.page))
    case Fires => if s.page.refresh then s.(page := AskFor(s.page.(refresh := false))) else s
    case Receive => if s.page.flight == Some(Sent) then s.(page := s.page.(flight := Some(Received(s.sequence)))) else s
    case Answer(young, built) => if Waits(s) then Served(s, young, built) else s
    case AnswerArrives => s.(page := Arrived(s.page, !s.stream.Off?))
    case Fail => s.(page := Failed(s.page))
  }

  function Run(steps: seq<Step>): State {
    if steps == [] then START else Next(Run(steps[..|steps| - 1]), steps[|steps| - 1])
  }

  /* ---- Gaps ---- */

  predicate Subscribed(s: State) { s.stream.Greeting? || s.stream.Streaming? }

  /** What is on its way to the browser: written, greeting, waiting, or in the publisher's hands. */
  function Frames(s: State): seq<Frame> {
    s.wire + (if s.stream.Greeting? then [Opened] else [])
           + (if s.slot.Some? then [s.slot.value] else [])
           + (if s.round.Turned? && s.round.mine && s.round.frame.Some? then [s.round.frame.value] else [])
  }

  /** While subscribed, a browser that is behind has a frame coming, a request under way, a refresh due, or an error on the
      page; or its view was read before the hub's present sequence, which every heartbeat names, so that the next one makes
      it ask. */
  predicate NoSilentGap(s: State) {
    || !Subscribed(s) || Frames(s) != [] || s.views.published <= s.page.held
    || s.page.flight.Some? || s.page.refresh || s.page.failed
    || DataOf(s.views, s.page.held) < s.sequence
  }

  /** No silent gap now, and none once the answer that is on its way, if any, has arrived. */
  predicate GapFree(s: State) { NoSilentGap(s) && NoSilentGap(Next(s, AnswerArrives)) }

  /** The revision that the page will rest at: what it holds, or an answer on its way that is not older than that. */
  function RestsAt(p: Page): int {
    if p.flight.Some? && p.flight.value.Answered? && p.held <= p.flight.value.revision then p.flight.value.revision else p.held
  }

  /** The page will come to rest: no request is yet to be answered or to follow, the answer on its way will be accepted,
      and no refresh is due. */
  predicate Resting(p: Page) {
    && !p.failed && !p.trailing && !p.refresh && !p.dropped
    && (p.flight.None? || (p.flight.value.Answered? && p.held <= p.flight.value.revision))
  }

  /** The page will come to rest below revision `p`, at a view that heartbeats give it no reason to doubt. */
  predicate Exposed(s: State, p: int) {
    Resting(s.page) && RestsAt(s.page) < p && s.sequence <= DataOf(s.views, RestsAt(s.page))
  }

  /* ---- The three ways a gap opens, told from the state before the step ---- */

  /** A view is published past a subscribed browser: its channel was not yet there when the clients were copied. */
  predicate PublishedPast(s: State, next: Option<Built>) {
    && s.round == Copied(false) && Subscribed(s) && Frames(s) == []
    && s.views.base.Some? && next.Some? && CanAdopt(s.views, next.value, s.sequence) && s.views.base.value != next.value.revision
    && Exposed(s, next.value.revision)
  }

  /** The answer comes out of the cache, and is older than the last publication though not older than what the page holds,
      and nothing was marked since it was read. */
  predicate Stale(s: State, step: Step) {
    && step.Answer? && Waits(s) && FromCache(s, step.young)
    && var c := s.views.cache[s.page.flight.value.sequence];
       s.page.held <= c < s.views.published && s.sequence <= DataOf(s.views, c)
  }

  /** That answer will be all the browser gets. */
  predicate ServedStale(s: State, step: Step) {
    && Stale(s, step) && Subscribed(s) && Frames(s) == [] && !s.page.trailing && !s.page.refresh && !s.page.dropped
  }

  /** The greeting is the last thing on its way and does not make the browser ask: a request is still open, or the
      view it holds was read at the very sequence the greeting names. */
  predicate GreetingPasses(s: State) {
    && |Frames(s)| == 1 && s.wire != [] && s.wire[0].Ready?
    && (s.page.flight.Some? || DataOf(s.views, s.page.held) == s.wire[0].sequence)
    && Exposed(s, s.views.published)
  }

  predicate Opens(s: State, step: Step) {
    match step
    case Turn(next, _) => PublishedPast(s, next)
    case Answer(_, _) => ServedStale(s, step)
    case FrameArrives => GreetingPasses(s)
    case _ => false
  }

  /* ---- Every reachable state ---- */

  predicate Plain(frame: Frame) { frame.Opened? || frame.Ready? }

  ghost predicate Channel(s: State) {
    && (!Subscribed(s) ==> s.slot.None? && s.wire == [] && (s.round.Idle? || !s.round.mine))
    && (s.stream.Greeting? ==> s.wire == [])
    && (forall i :: 0 <= i < |s.wire| && s.wire[i].Opened? ==> i == 0 && 2 <= |s.wire| && s.wire[1].Ready?)
    && (s.slot.Some? ==> !Plain(s.slot.value)) && (s.round.Turned? && s.round.frame.Some? ==> !Plain(s.round.frame.value))
    && (Frames(s) != [] ==>
          var last := Frames(s)[|Frames(s)| - 1]; last.Numbers? ==> last.revision == s.views.published)
    && (!s.round.Idle? && !s.round.mine ==> s.slot.None? && forall i :: 0 <= i < |s.wire| ==> Plain(s.wire[i]))
  }

  predicate Below(frame: Frame, view: int) { frame.Numbers? ==> frame.revision <= view }

  /** Every revision that is about was given. */
  ghost predicate Given(s: State) {
    && (forall i :: 0 <= i < |s.wire| ==> Below(s.wire[i], s.views.view))
    && (s.slot.Some? ==> Below(s.slot.value, s.views.view))
    && (s.round.Turned? && s.round.frame.Some? ==> Below(s.round.frame.value, s.views.view))
    && s.page.held <= s.views.view
    && (s.page.flight.Some? && s.page.flight.value.Answered? ==> s.page.flight.value.revision <= s.views.view)
    && (forall n :: n in s.views.cache ==> s.views.cache[n] <= s.views.view)
    && s.views.published <= s.views.view && (s.views.base.Some? ==> s.views.base.value <= s.views.view)
  }

  predicate Orderly(p: Page, stream: Stream) {
    (p.trailing ==> p.flight.Some?) && (p.failed ==> p.flight.None?) && (p.dropped ==> p.flight.Some? && (p.trailing || stream.Off?))
  }

  ghost predicate Inv(s: State) { Channel(s) && Given(s) && Orderly(s.page, s.stream) }

  /** A browser that is behind has something coming that will bring it up to date. */
  predicate Covered(s: State) {
    !Subscribed(s) || Frames(s) != [] || !Exposed(s, s.views.published)
  }

  lemma CoveredIsGapFree(s: State)
    requires Inv(s)
    ensures Covered(s) <==> GapFree(s)
  {
    assert Frames(Next(s, AnswerArrives)) == Frames(s);
    hide Frames, Channel;
  }

  /* ---- Step by step ---- */

  lemma SameChannel(s: State, t: State)
    requires Channel(s)
    requires t.stream == s.stream && t.slot == s.slot && t.wire == s.wire && t.round == s.round && t.views.published == s.views.published
    ensures Channel(t) && Frames(t) == Frames(s)
  {
    assert Frames(t) == Frames(s);
  }

  lemma HandsOver(s: State, t: State)
    requires Channel(s) && s.round.Copied? && t.round.Turned? && t.round.mine == s.round.mine
    requires t.stream == s.stream && t.slot == s.slot && t.wire == s.wire
    requires if t.round.frame.None? then t.views.published == s.views.published
             else !Plain(t.round.frame.value) && (t.round.frame.value.Numbers? ==> t.round.frame.value.revision == t.views.published)
    ensures Channel(t)
  {
    if s.round.mine && t.round.frame.Some? {
      assert Frames(t) == Frames(s) + [t.round.frame.value];
    } else {
      assert Frames(t) == Frames(s);
      NothingButPlain(s);
    }
  }

  /** Before its first own round a stream carries its greeting only. */
  lemma NothingButPlain(s: State)
    requires Channel(s) && s.round.Copied?
    ensures !s.round.mine ==> forall i :: 0 <= i < |Frames(s)| ==> Plain(Frames(s)[i])
  {
  }

  lemma TurnKeeps(s: State, next: Option<Built>, large: bool)
    requires Inv(s) && s.round.Copied?
    ensures Inv(TurnTaken(s, next, large))
  {
    hide Channel, Frames, DataOf;
    var t := TurnTaken(s, next, large);
    if t.round.Turned? {
      HandsOver(s, t);
    }
  }

  lemma SendKeeps(s: State)
    requires Inv(s) && s.round.Turned?
    ensures Inv(SentOut(s))
    ensures Frames(SentOut(s)) != [] <==> Frames(s) != []
  {
    var t := SentOut(s);
    if s.round.mine && s.round.frame.Some? {
      assert Frames(t)[|Frames(t)| - 1] == s.round.frame.value == Frames(s)[|Frames(s)| - 1];
    } else {
      assert Frames(t) == Frames(s);
    }
  }

  lemma GreetKeeps(s: State)
    requires Inv(s) && s.stream.Greeting?
    ensures Inv(Next(s, Greet))
  {
    var t := Next(s, Greet);
    if s.slot.Some? || (s.round.Turned? && s.round.mine && s.round.frame.Some?) {
      assert Frames(t)[|Frames(t)| - 1] == Frames(s)[|Frames(s)| - 1];
    }
  }

  lemma TakeKeeps(s: State)
    requires Inv(s)
    ensures Inv(Next(s, TakeFrame)) && Frames(Next(s, TakeFrame)) == Frames(s)
  {
    hide Channel;
    if s.stream.Streaming? && s.slot.Some? {
      var t := s.(slot := None, wire := s.wire + [s.slot.value]);
      assert Frames(t) == Frames(s);
      MovedToWire(s);
    }
  }

  lemma MovedToWire(s: State)
    requires Channel(s) && s.stream.Streaming? && s.slot.Some?
    ensures Channel(s.(slot := None, wire := s.wire + [s.slot.value]))
  {
    var t := s.(slot := None, wire := s.wire + [s.slot.value]);
    assert Frames(t) == Frames(s);
    hide Frames;
  }

  /** What a page holds and awaits after a frame: nothing that was not given. */
  lemma ConsumeKeeps(p: Page, frame: Frame, known: int, stream: Stream, view: int)
    requires Orderly(p, stream) && p.held <= view && Below(frame, view)
    ensures var q := Consume(p, frame, known);
            && Orderly(q, stream) && q.held <= view
            && (q.flight.Some? && q.flight.value.Answered? ==> q.flight == p.flight)
  {
  }

  lemma FrameKeeps(s: State)
    requires Inv(s) && s.wire != []
    ensures Inv(Next(s, FrameArrives)) && Frames(Next(s, FrameArrives)) == Frames(s)[1..]
  {
    hide Consume, Channel, Frames, Plain;
    var rest := s.(wire := s.wire[1..]);
    FirstTaken(s);
    ConsumeKeeps(s.page, s.wire[0], DataOf(s.views, s.page.held), s.stream, s.views.view);
    SameChannel(rest, Next(s, FrameArrives));
  }

  lemma FirstTaken(s: State)
    requires Channel(s) && s.wire != []
    ensures var rest := s.(wire := s.wire[1..]);
            Channel(rest) && Frames(rest) == Frames(s)[1..]
  {
    var rest := s.(wire := s.wire[1..]);
    assert Frames(rest) == Frames(s)[1..];
    hide Frames;
  }

  lemma ServeKeeps(s: State, young: bool, built: Built)
    requires Inv(s) && Waits(s)
    ensures Inv(Served(s, young, built)) && Frames(Served(s, young, built)) == Frames(s)
  {
    hide Channel, Frames, DataOf;
    SameChannel(s, Served(s, young, built));
  }

  lemma ServerKeeps(s: State, step: Step)
    requires Inv(s) && (step.Mark? || step.Evict? || step.OtherGet?)
    ensures Inv(Next(s, step)) && Frames(Next(s, step)) == Frames(s)
  {
    hide Channel, Frames, DataOf;
    SameChannel(s, Next(s, step));
  }

  predicate OfPage(step: Step) {
    step.Ask? || step.Reload? || step.Fires? || step.Receive? || step.AnswerArrives? || step.Fail?
  }

  lemma PageKeeps(s: State, step: Step)
    requires Inv(s) && OfPage(step)
    ensures Inv(Next(s, step)) && Frames(Next(s, step)) == Frames(s)
  {
    hide Channel, Frames;
    SameChannel(s, Next(s, step));
  }

  lemma StreamKeeps(s: State, step: Step)
    requires Inv(s) && (step.Register? || step.Disconnect? || step.Suspend? || step.Resume?)
    ensures Inv(Next(s, step))
  {
  }

  lemma RoundKeeps(s: State, step: Step)
    requires Inv(s) && (step.Begin? || step.Skip?)
    ensures Inv(Next(s, step)) && Frames(Next(s, step)) == Frames(s)
  {
    assert Frames(Next(s, step)) == Frames(s);
  }

  lemma NextKeeps(s: State, step: Step)
    requires Inv(s)
    ensures Inv(Next(s, step))
  {
    hide Inv, TurnTaken, SentOut, Served;
    match step
    case Turn(next, large) => if s.round.Copied? { TurnKeeps(s, next, large); }
    case Send => if s.round.Turned? { SendKeeps(s); }
    case Greet => if s.stream.Greeting? { GreetKeeps(s); }
    case TakeFrame => TakeKeeps(s);
    case FrameArrives => if s.wire != [] { FrameKeeps(s); }
    case Answer(young, built) => if Waits(s) { ServeKeeps(s, young, built); }
    case Begin => RoundKeeps(s, step);
    case Skip => RoundKeeps(s, step);
    case Register => StreamKeeps(s, step);
    case Disconnect => StreamKeeps(s, step);
    case Suspend => StreamKeeps(s, step);
    case Resume => StreamKeeps(s, step);
    case Mark => ServerKeeps(s, step);
    case Evict => ServerKeeps(s, step);
    case OtherGet(_, _) => ServerKeeps(s, step);
    case _ => PageKeeps(s, step);
  }

  /* ---- Coverage, exactly ---- */

  /** A view once given keeps its data revision. */
  lemma SameData(v: Views, b: Built, sequence: int, revision: int)
    requires CanAdopt(v, b, sequence) && revision <= v.view
    ensures DataOf(Adopted(v, b), revision) == DataOf(v, revision)
  {
  }

  lemma HandedFrames(s: State, t: State)
    requires s.round.Copied? && t.stream == s.stream && t.slot == s.slot && t.wire == s.wire
    ensures Frames(t) == Frames(s) + if t.round.Turned? && t.round.mine && t.round.frame.Some? then [t.round.frame.value] else []
  {
    var hand := if t.round.Turned? && t.round.mine && t.round.frame.Some? then [t.round.frame.value] else [];
    assert Frames(s) + [] == Frames(s);
    assert Frames(t) == Frames(s) + hand;
  }

  lemma TurnCovers(s: State, next: Option<Built>, large: bool)
    requires Inv(s) && Covered(s) && s.round.Copied?
    ensures Covered(TurnTaken(s, next, large)) <==> !PublishedPast(s, next)
  {
    hide Channel, Frames, DataOf;
    HandedFrames(s, TurnTaken(s, next, large));
    if next.Some? && CanAdopt(s.views, next.value, s.sequence) {
      SameData(s.views, next.value, s.sequence, RestsAt(s.page));
      PublishedAside(Adopted(s.views, next.value), next.value.revision, RestsAt(s.page));
    }
  }

  lemma PublishedAside(v: Views, published: int, revision: int)
    ensures DataOf(v.(base := Some(published), published := published), revision) == DataOf(v, revision)
  {
  }

  lemma LastFrameCovers(s: State)
    requires Inv(s) && Covered(s) && s.wire != [] && |Frames(s)| == 1
    ensures Covered(Next(s, FrameArrives)) <==> !GreetingPasses(s)
  {
    assert Frames(s)[0] == s.wire[0];
    FrameKeeps(s);
    hide Frames, DataOf;
  }

  lemma FrameCovers(s: State)
    requires Inv(s) && Covered(s) && s.wire != []
    ensures Covered(Next(s, FrameArrives)) <==> !GreetingPasses(s)
  {
    assert Frames(s) != [];
    hide Frames, Inv, Exposed, Consume;
    FrameKeeps(s);
    if |Frames(s)| == 1 {
      LastFrameCovers(s);
    }
  }

  lemma ServeCovers(s: State, young: bool, built: Built)
    requires Inv(s) && Covered(s) && Waits(s)
    ensures Covered(Served(s, young, built)) <==> !ServedStale(s, Answer(young, built))
  {
    ServeKeeps(s, young, built);
    hide Channel, Frames;
    if !FromCache(s, young) && CanAdopt(s.views, built, s.sequence) {
      SameData(s.views, built, s.sequence, s.page.held);
    }
  }

  lemma PageCovers(s: State, step: Step)
    requires Inv(s) && Covered(s) && OfPage(step)
    ensures Covered(Next(s, step))
  {
    PageKeeps(s, step);
    hide Frames, Channel, DataOf;
  }

  lemma ServerCovers(s: State, step: Step)
    requires Inv(s) && Covered(s) && (step.Mark? || step.Evict? || step.OtherGet?)
    ensures Covered(Next(s, step))
  {
    ServerKeeps(s, step);
    hide Channel, Frames;
    if step.OtherGet? && CanAdopt(s.views, step.built, s.sequence) {
      SameData(s.views, step.built, s.sequence, RestsAt(s.page));
    }
  }

  lemma RestCovers(s: State, step: Step)
    requires Inv(s) && Covered(s)
    requires step.Begin? || step.Skip? || step.Register? || step.Disconnect? || step.Suspend? || step.Resume? || step.TakeFrame?
    ensures Covered(Next(s, step))
  {
    hide Channel, DataOf;
    assert step.Begin? || step.Skip? || step.TakeFrame? ==> Frames(Next(s, step)) == Frames(s);
  }

  lemma SendCovers(s: State)
    requires Inv(s) && Covered(s)
    ensures Covered(Next(s, Send))
  {
    if s.round.Turned? {
      SendKeeps(s);
      hide Frames, Inv;
    }
  }

  lemma GreetCovers(s: State)
    requires Inv(s) && Covered(s)
    ensures Covered(Next(s, Greet))
  {
    hide Inv;
  }

  /** From a covered state, a step leaves a gap exactly when it is one of the three. */
  lemma StepExact(s: State, step: Step)
    requires Inv(s) && Covered(s)
    ensures Covered(Next(s, step)) <==> !Opens(s, step)
  {
    hide Inv, Covered, TurnTaken, SentOut, Served, Frames, Exposed;
    match step
    case Turn(next, large) => if s.round.Copied? { TurnCovers(s, next, large); }
    case Send => SendCovers(s);
    case Greet => GreetCovers(s);
    case FrameArrives => if s.wire != [] { FrameCovers(s); }
    case Answer(young, built) => if Waits(s) { ServeCovers(s, young, built); }
    case Mark => ServerCovers(s, step);
    case Evict => ServerCovers(s, step);
    case OtherGet(_, _) => ServerCovers(s, step);
    case Begin => RestCovers(s, step);
    case Skip => RestCovers(s, step);
    case Register => RestCovers(s, step);
    case Disconnect => RestCovers(s, step);
    case Suspend => RestCovers(s, step);
    case Resume => RestCovers(s, step);
    case TakeFrame => RestCovers(s, step);
    case _ => PageCovers(s, step);
  }

  /* ---- Whole runs ---- */

  lemma AtStart()
    ensures Inv(START) && Covered(START)
  {
  }

  lemma {:induction false} InvAlways(steps: seq<Step>)
    ensures Inv(Run(steps))
  {
    hide Inv, Next;
    if steps == [] {
      AtStart();
    } else {
      InvAlways(steps[..|steps| - 1]);
      NextKeeps(Run(steps[..|steps| - 1]), steps[|steps| - 1]);
    }
  }

  ghost predicate CoveredUpTo(steps: seq<Step>, n: nat)
    requires n <= |steps|
  {
    forall i :: 0 <= i <= n ==> Covered(Run(steps[..i]))
  }

  ghost predicate QuietUpTo(steps: seq<Step>, n: nat)
    requires n <= |steps|
  {
    forall i :: 0 <= i < n ==> !Opens(Run(steps[..i]), steps[i])
  }

  lemma {:induction false} CoveredExactly(steps: seq<Step>, n: nat)
    requires n <= |steps|
    ensures CoveredUpTo(steps, n) <==> QuietUpTo(steps, n)
    decreases n
  {
    hide Inv, Next, Covered, Opens;
    if n == 0 {
      AtStart();
    } else {
      CoveredExactly(steps, n - 1);
      InvAlways(steps[..n - 1]);
      assert steps[..n][..n - 1] == steps[..n - 1] && steps[..n][n - 1] == steps[n - 1];
      assert Run(steps[..n]) == Next(Run(steps[..n - 1]), steps[n - 1]);
      if CoveredUpTo(steps, n - 1) {
        StepExact(Run(steps[..n - 1]), steps[n - 1]);
      }
    }
  }

  /** For every run, under every interleaving of marks, publications and their sends, evictions, streams that come and go,
      slow readers, a page that is suspended, resumed and reloaded, requests that are replaced, rejected and fail: the run is
      free of silent gaps, at every moment and after the arrival of whatever answer is under way, if and only if none of its
      steps publishes past the browser, serves it a stale answer, or lets it pass its greeting unasked. */
  lemma {:induction false} NoGapExactly(steps: seq<Step>)
    ensures (forall i :: 0 <= i <= |steps| ==> GapFree(Run(steps[..i])))
       <==> (forall i :: 0 <= i < |steps| ==> !Opens(Run(steps[..i]), steps[i]))
  {
    hide Inv, Next, Covered, Opens, GapFree, Run;
    forall i | 0 <= i <= |steps| ensures Covered(Run(steps[..i])) <==> GapFree(Run(steps[..i])) {
      InvAlways(steps[..i]);
      CoveredIsGapFree(Run(steps[..i]));
    }
    CoveredExactly(steps, |steps|);
  }

  /** In particular: in every reachable state in which the browser is behind and its one request is all there is, the
      answer it is served leaves no silent gap if and only if it is not a stale one. */
  lemma {:induction false} StaleExactly(steps: seq<Step>, young: bool, built: Built)
    requires var s := Run(steps);
             && Subscribed(s) && Frames(s) == [] && s.page.held < s.views.published
             && Waits(s) && !s.page.trailing && !s.page.refresh
    ensures var s := Run(steps);
            NoSilentGap(Next(Next(s, Answer(young, built)), AnswerArrives)) <==> !Stale(s, Answer(young, built))
  {
    hide Run;
    InvAlways(steps);
    var s := Run(steps);
    var t := Next(s, Answer(young, built));
    assert Frames(t) == Frames(s) && Frames(Next(t, AnswerArrives)) == Frames(t);
    hide Frames, Channel;
  }

  /* ---- What a gap looks like ---- */

  ghost predicate Dated(s: State) { forall r :: r in s.views.data ==> s.views.data[r] <= s.sequence }

  lemma DatedNext(s: State, step: Step)
    requires 0 <= s.sequence && Dated(s)
    ensures 0 <= Next(s, step).sequence && Dated(Next(s, step))
  {
    hide Consume, Arrived, Reloaded, AskFor, Failed, Frames, Cancelled, DataOf;
  }

  lemma {:induction false} NeverAhead(steps: seq<Step>)
    ensures 0 <= Run(steps).sequence && Dated(Run(steps))
  {
    hide Next, Dated;
    if steps == [] {
      NothingDated();
    } else {
      NeverAhead(steps[..|steps| - 1]);
      DatedNext(Run(steps[..|steps| - 1]), steps[|steps| - 1]);
    }
  }

  lemma NothingDated()
    ensures Dated(START)
  {
  }

  /** In a silent gap the browser's view was read at the hub's present sequence. That is the data revision of the published
      view too, or an earlier one: the accounting moved without a mark, and the page calls itself synced. */
  lemma GapLooksSynced(steps: seq<Step>)
    requires !NoSilentGap(Run(steps))
    ensures var s := Run(steps); DataOf(s.views, s.views.published) <= DataOf(s.views, s.page.held) == s.sequence
  {
    NeverAhead(steps);
  }

  /* ---- Each of the three does happen ---- */

  lemma RunStep(steps: seq<Step>, i: nat)
    requires i < |steps|
    ensures Run(steps[..i + 1]) == Next(Run(steps[..i]), steps[i])
  {
    assert steps[..i + 1][..i] == steps[..i];
  }

  /** The stream is open and the first view is on the page. */
  const SETTLED: seq<Step> := [Register, Greet, FrameArrives, FrameArrives, Receive, Answer(false, Built(1, 0)), AnswerArrives]

  /** A page that has seen its event source open, holds `held` and waits for `flight`. */
  function Holding(held: int, flight: Option<Flight>): Page { Page(true, held, flight, false, false, false, false) }

  const FIRST := Views(1, map[1 := 0], Some(1), 0, map[0 := 1])
  const GREETED := State(0, false, Idle, NO_VIEWS, Streaming, None, [Ready(0)], Holding(0, Some(Sent)))
  const SHOWN := State(0, false, Idle, FIRST, Streaming, None, [], Holding(1, None))

  lemma StartsEmpty(steps: seq<Step>)
    ensures Run(steps[..0]) == START
  {
  }

  lemma Greets(steps: seq<Step>)
    requires SETTLED <= steps
    ensures Run(steps[..3]) == GREETED
  {
    hide Run;
    StartsEmpty(steps);
    RunStep(steps, 0);
    RunStep(steps, 1);
    RunStep(steps, 2);
  }

  lemma Asks(steps: seq<Step>)
    requires SETTLED <= steps
    ensures Run(steps[..5]) == GREETED.(wire := [], page := Holding(0, Some(Received(0))))
  {
    hide Run;
    Greets(steps);
    RunStep(steps, 3);
    RunStep(steps, 4);
  }

  lemma Settles(steps: seq<Step>)
    requires SETTLED <= steps
    ensures Run(steps[..7]) == SHOWN
  {
    hide Run;
    Asks(steps);
    RunStep(steps, 5);
    RunStep(steps, 6);
  }

  /** The cache: a slow browser at revision 1 misses the frame for 2. After the next mark another reader's answer is
      cached as revision 3, and the publication finds the accounting changed again without a further mark — an edge of
      the window moved, a price changed, a status went stale — and sends 4 on base 2. The browser does not have that
      base, asks for a full answer, and is given 3. */
  const CACHED: seq<Step> := SETTLED + [
    Mark, Begin, Turn(Some(Built(2, 1)), false), Send,
    Mark, OtherGet(2, Built(3, 2)), Begin, Turn(Some(Built(4, 2)), false), Send,
    TakeFrame, FrameArrives, Receive, Answer(true, Built(4, 2)), AnswerArrives]

  const MISSED := SHOWN.(
    sequence := 1, views := Views(2, map[1 := 0, 2 := 1], Some(2), 2, map[0 := 1]), slot := Some(Numbers(1, 2)))
  const OVERTAKEN := MISSED.(
    sequence := 2, dirty := true, views := Views(3, map[1 := 0, 2 := 1, 3 := 2], Some(2), 2, map[0 := 1, 2 := 3]))
  const REPLACED := OVERTAKEN.(
    dirty := false, views := Views(4, map[1 := 0, 2 := 1, 3 := 2, 4 := 2], Some(4), 4, map[0 := 1, 2 := 3]),
    slot := Some(Numbers(2, 4)))
  const ASKED := REPLACED.(slot := None, page := Holding(1, Some(Received(2))))

  lemma MissesOne()
    ensures Run(CACHED[..11]) == MISSED
  {
    hide Run;
    Settles(CACHED);
    RunStep(CACHED, 7);
    RunStep(CACHED, 8);
    RunStep(CACHED, 9);
    RunStep(CACHED, 10);
  }

  lemma AnotherReads()
    ensures Run(CACHED[..13]) == OVERTAKEN
  {
    hide Run;
    MissesOne();
    RunStep(CACHED, 11);
    RunStep(CACHED, 12);
  }

  lemma FallsBehind()
    ensures Run(CACHED[..16]) == REPLACED
  {
    hide Run;
    AnotherReads();
    RunStep(CACHED, 13);
    RunStep(CACHED, 14);
    RunStep(CACHED, 15);
  }

  lemma LacksBase()
    ensures Run(CACHED[..18]) == ASKED.(page := Holding(1, Some(Sent)))
  {
    hide Run;
    FallsBehind();
    RunStep(CACHED, 16);
    RunStep(CACHED, 17);
  }

  lemma AsksForAll()
    ensures Run(CACHED[..19]) == ASKED
  {
    hide Run;
    LacksBase();
    RunStep(CACHED, 18);
  }

  lemma CachedAnswerLeavesGap()
    ensures Stale(Run(CACHED[..19]), CACHED[19]) && Opens(Run(CACHED[..19]), CACHED[19])
    ensures !NoSilentGap(Run(CACHED))
  {
    hide Run;
    AsksForAll();
    RunStep(CACHED, 19);
    RunStep(CACHED, 20);
    assert CACHED[..21] == CACHED;
  }

  /** The split publication: a publication has copied its clients when the browser's stream comes back. Its full answer is
      freshly built as revision 2; then the publication's turn finds the accounting changed and sends 3, to the copied
      clients only. */
  const PASSED: seq<Step> := SETTLED + [
    Disconnect, Mark, Begin, Register, Greet, FrameArrives, FrameArrives,
    Receive, Answer(false, Built(2, 1)), AnswerArrives, Turn(Some(Built(3, 1)), false)]

  const BACK := SHOWN.(sequence := 1, round := Copied(false), wire := [Opened, Ready(1)])
  const WAITING := BACK.(wire := [], page := Holding(1, Some(Received(1))))
  const CURRENT := BACK.(wire := [], views := Views(2, map[1 := 0, 2 := 1], Some(1), 0, map[0 := 1, 1 := 2]), page := Holding(2, None))

  lemma ComesBack()
    ensures Run(PASSED[..12]) == BACK
  {
    hide Run;
    Settles(PASSED);
    RunStep(PASSED, 7);
    RunStep(PASSED, 8);
    RunStep(PASSED, 9);
    RunStep(PASSED, 10);
    RunStep(PASSED, 11);
  }

  lemma AsksAgain()
    ensures Run(PASSED[..15]) == WAITING
  {
    hide Run;
    ComesBack();
    RunStep(PASSED, 12);
    RunStep(PASSED, 13);
    RunStep(PASSED, 14);
  }

  lemma IsCurrent()
    ensures Run(PASSED[..17]) == CURRENT
  {
    hide Run;
    AsksAgain();
    RunStep(PASSED, 15);
    RunStep(PASSED, 16);
  }

  /** No answer of this run comes out of the cache. */
  lemma PublicationPassesBy()
    ensures Opens(Run(PASSED[..17]), PASSED[17]) && !NoSilentGap(Run(PASSED))
    ensures forall i :: 0 <= i < |PASSED| && PASSED[i].Answer? ==> !PASSED[i].young
  {
    hide Run;
    IsCurrent();
    RunStep(PASSED, 17);
    assert PASSED[..18] == PASSED;
  }

  /** The first request races the stream: it is answered with revision 1, then a publication sends 2 to others, and only
      then is the stream registered. Its greeting names the sequence at which revision 1 was read. */
  const RACED: seq<Step> := [
    Mark, Begin, Receive, Answer(false, Built(1, 1)), AnswerArrives, Turn(Some(Built(2, 1)), false), Send,
    Register, Greet, FrameArrives, FrameArrives]

  const EARLY := START.(
    sequence := 1, round := Copied(false), views := Views(1, map[1 := 1], Some(1), 0, map[1 := 1]),
    page := START.page.(flight := Some(Answered(1))))
  const UNREGISTERED := EARLY.(
    round := Idle, views := Views(2, map[1 := 1, 2 := 1], Some(2), 2, map[1 := 1]), page := START.page.(held := 1, flight := None))

  lemma AnsweredFirst()
    ensures Run(RACED[..4]) == EARLY
  {
    hide Run;
    StartsEmpty(RACED);
    RunStep(RACED, 0);
    RunStep(RACED, 1);
    RunStep(RACED, 2);
    RunStep(RACED, 3);
  }

  lemma PublishedToOthers()
    ensures Run(RACED[..7]) == UNREGISTERED
  {
    hide Run;
    AnsweredFirst();
    RunStep(RACED, 4);
    RunStep(RACED, 5);
    RunStep(RACED, 6);
  }

  /** Nor of this one. */
  lemma GreetingPassesUnasked()
    ensures Opens(Run(RACED[..10]), RACED[10]) && !NoSilentGap(Run(RACED))
    ensures forall i :: 0 <= i < |RACED| && RACED[i].Answer? ==> !RACED[i].young
  {
    hide Run;
    PublishedToOthers();
    RunStep(RACED, 7);
    RunStep(RACED, 8);
    RunStep(RACED, 9);
    RunStep(RACED, 10);
    assert RACED[..11] == RACED;
  }
}
