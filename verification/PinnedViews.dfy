/** The numeric protocol over pinned readers: the ingest and its marks, the readers that pin ledger and data revision
    together, the publisher that holds the view store while it builds, restarts, and the browser. */
module PinnedViews {
  import opened Wrappers
  import opened Snapshots
  import opened Incremental
  import Ledger
  import LedgerProofs
  import Wire
  import Pins
  import Browser
  import NumericViews
  import Replication
  import opened Shown

  /** The ledger as the range queries read it; ids are handed out in order. */
  function Entries(rows: seq<Ledger.LedgerRow>): seq<Entry> {
    seq(|rows|, i requires 0 <= i < |rows| =>
      Entry(i + 1, (rows[i].hostId, rows[i].conversationId), rows[i].at, rows[i].delta))
  }

  // `ledgers` is history: what was pinned with each data revision of each run. `locked`: the publisher holds the view store,
  // and has since the hub's sequence was this.
  datatype Whole = Whole(p: Pins.State, r: Replication.System, ledgers: Ledgers, locked: Option<int>)

  datatype Move =
    | Serves(act: Pins.Step)
    | Locks
    | Speaks(step: Replication.Step)

  /** The reader's pin enters the history as it unlocks. */
  function Pinned(w: Whole, step: Pins.Step): Ledgers {
    if step.Unlock? && step.reader in w.p.readers && w.p.readers[step.reader].Read? then
      var reader := w.p.readers[step.reader];
      w.ledgers[(w.r.epoch, reader.revision) := Entries(reader.ledger)]
    else w.ledgers
  }

  /** What is built was read under a pin of this run: an answer in full, a publication's view on the stored one, by a reader
      that pinned while the publisher held the store. */
  ghost predicate Can(w: Whole, step: Replication.Step) {
    match step
    case Get(built, _) => w.locked.None? && ShowsQuery(w.ledgers, built)
    case Push(key, next, _, _) =>
      && w.locked.Some?
      && (next.Some? && key in w.r.store.entries ==>
            Rebuilds(w.ledgers, w.r.store.entries[key].value, next.value) && w.locked.value <= next.value.head.dataRevision)
    case Forget(_) => w.locked.None?
    case Restart(epoch) => epoch != "" && forall k :: k in w.r.history || k in w.ledgers ==> k.0 != epoch
    case _ => true
  }

  /** One move; a restart finds the ledger as it was committed. */
  ghost function Moved(w: Whole, move: Move): Whole {
    match move
    case Serves(act) => w.(p := Pins.Next(w.p, act), ledgers := Pinned(w, act))
    case Locks => if w.locked.None? then w.(locked := Some(w.p.revision)) else w
    case Speaks(step) =>
      if !Can(w, step) then w
      else
        var r := Replication.Next(w.r, step);
        if step.Restart? then Whole(Pins.Start(w.p.ledger), r, w.ledgers, None)
        else w.(r := r, locked := if step.Push? then None else w.locked)
  }

  ghost function Run(epoch: string, moves: seq<Move>): Whole {
    if moves == [] then Whole(Pins.Start([]), Replication.Start(epoch), map[], None)
    else Moved(Run(epoch, moves[..|moves| - 1]), moves[|moves| - 1])
  }

  /** The protocol's own steps. */
  ghost function Trace(epoch: string, moves: seq<Move>): seq<Replication.Step> {
    if moves == [] then []
    else
      var before, move := moves[..|moves| - 1], moves[|moves| - 1];
      Trace(epoch, before) + if move.Speaks? && Can(Run(epoch, before), move.step) then [move.step] else []
  }

  /* ---- What is kept ---- */

  ghost predicate IsPinned(w: Whole, k: (string, int))
    requires k in w.ledgers
  {
    exists p :: p in w.p.pins && p.revision == k.1 && w.ledgers[k] == Entries(p.ledger)
  }

  /** No stored view was read later than `now`. */
  ghost predicate ReadBy(r: Replication.System, now: int) {
    forall key :: key in r.store.entries ==> r.store.entries[key].value.head.dataRevision <= now
  }

  ghost predicate Kept(w: Whole) {
    && Pins.Inv(w.p) && Replication.Inv(w.r)
    && Announced(w.ledgers)
    && (forall k :: k in w.ledgers && k.0 == w.r.epoch ==> IsPinned(w, k))
    && ReadBy(w.r, w.p.revision)
    && (w.locked.Some? ==> w.locked.value <= w.p.revision && ReadBy(w.r, w.locked.value))
  }

  lemma EntriesPrefix(a: seq<Ledger.LedgerRow>, b: seq<Ledger.LedgerRow>)
    requires a <= b
    ensures Entries(a) <= Entries(b)
  {
  }

  lemma EntriesTable(rows: seq<Ledger.LedgerRow>)
    ensures Table(Entries(rows)) && forall i :: 0 <= i < |Entries(rows)| ==> 0 < Entries(rows)[i].id
  {
  }

  /** A new pin fits among those of its run. */
  lemma PinAnnounced(w: Whole, r: int)
    requires Kept(w) && r in w.p.readers && w.p.readers[r].Read?
    ensures Announced(Pinned(w, Pins.Unlock(r))) && Grown(w.ledgers, Pinned(w, Pins.Unlock(r)))
  {
    hide ReadBy, Replication.Inv, Entries, Table;
    var t, key := Pins.Next(w.p, Pins.Unlock(r)), (w.r.epoch, w.p.readers[r].revision);
    var mine := Pins.Pin(w.p.readers[r].revision, w.p.readers[r].ledger);
    var after := Pinned(w, Pins.Unlock(r));
    Pins.NextKeeps(w.p, Pins.Unlock(r));
    EntriesTable(mine.ledger);
    if key in w.ledgers {
      var p := PinOf(w, key);
      assert p in t.pins && mine in t.pins && Pins.Agree(p, mine);
    }
    forall e, i, j | (e, i) in after && (e, j) in after && i <= j ensures after[(e, i)] <= after[(e, j)] {
      if e == w.r.epoch {
        var p := if i == mine.revision then mine else PinOf(w, (e, i));
        var q := if j == mine.revision then mine else PinOf(w, (e, j));
        assert p in t.pins && q in t.pins && Pins.Agree(p, q);
        EntriesPrefix(p.ledger, q.ledger);
      }
    }
  }

  ghost function PinOf(w: Whole, k: (string, int)): (p: Pins.Pin)
    requires k in w.ledgers && IsPinned(w, k)
    ensures p in w.p.pins && p.revision == k.1 && w.ledgers[k] == Entries(p.ledger)
  {
    var p :| p in w.p.pins && p.revision == k.1 && w.ledgers[k] == Entries(p.ledger);
    p
  }

  lemma ServeKeeps(w: Whole, step: Pins.Step)
    requires Kept(w)
    ensures Kept(Moved(w, Serves(step))) && Grown(w.ledgers, Pinned(w, step))
  {
    hide Replication.Inv, Pins.Inv, Announced, Entries;
    Pins.NextKeeps(w.p, step);
    RevisionClimbs(w.p, step);
    if step.Unlock? && step.reader in w.p.readers && w.p.readers[step.reader].Read? {
      PinAnnounced(w, step.reader);
    }
  }

  lemma RevisionClimbs(p: Pins.State, step: Pins.Step)
    ensures p.revision <= Pins.Next(p, step).revision && p.pins <= Pins.Next(p, step).pins
  {
  }

  /** The history of pins is only added to; a pin of the same data revision repeats what is there. */
  ghost predicate Grown(a: Ledgers, b: Ledgers) {
    forall k :: k in a ==> k in b && b[k] == a[k]
  }

  /** What was read under a pin of this run was read no later than now. */
  lemma ReadBefore(w: Whole, v: Snapshot)
    requires Kept(w) && (v.head.epoch, v.head.dataRevision) in w.ledgers && v.head.epoch == w.r.epoch
    ensures v.head.dataRevision <= w.p.revision
  {
    hide Replication.Inv, ReadBy, Announced, Entries;
    var p := PinOf(w, (v.head.epoch, v.head.dataRevision));
    assert Pins.Fits(p, w.p);
  }

  lemma AdoptReadBy(r: Replication.System, built: Snapshot, at: int, now: int)
    requires ReadBy(r, now) && built.head.dataRevision <= now
    ensures ReadBy(Replication.AfterGet(r, built, at), now)
  {
    hide NumericViews.Stays;
  }

  lemma PushReadBy(r: Replication.System, key: string, next: Option<Snapshot>, at: int, large: bool, now: int)
    requires ReadBy(r, now) && (next.Some? ==> next.value.head.queryKey == key)
    requires next.Some? && key in r.store.entries ==> next.value.head.dataRevision <= now
    ensures ReadBy(Replication.AfterPush(r, key, next, at, large), now)
  {
    hide NumericViews.Stays, NumericViews.Difference;
  }

  lemma StepReadBy(w: Whole, step: Replication.Step)
    requires Kept(w) && Can(w, step) && !step.Restart?
    ensures ReadBy(Replication.Next(w.r, step), w.p.revision) && Replication.Next(w.r, step).epoch == w.r.epoch
    ensures !step.Get? && !step.Push? && w.locked.Some? ==> ReadBy(Replication.Next(w.r, step), w.locked.value)
  {
    hide Replication.Inv, Pins.Inv, Announced, IsPinned, Replication.AfterGet, Replication.AfterPush, Shows;
    match step
    case Get(built, at) =>
      if Replication.Built(w.r, built) {
        ReadBefore(w, built);
        AdoptReadBy(w.r, built, at, w.p.revision);
        SameEpoch(w.r, step);
      }
    case Push(key, next, at, large) =>
      if next.Some? ==> Replication.Built(w.r, next.value) && next.value.head.queryKey == key {
        if next.Some? && key in w.r.store.entries {
          ReadBefore(w, next.value);
        }
        PushReadBy(w.r, key, next, at, large, w.p.revision);
      }
      SameEpoch(w.r, step);
    case _ =>
  }

  lemma SameEpoch(r: Replication.System, step: Replication.Step)
    requires !step.Restart?
    ensures Replication.Next(r, step).epoch == r.epoch
  {
    hide NumericViews.Adopt, NumericViews.Publish;
  }

  lemma SpeakKeeps(w: Whole, step: Replication.Step)
    requires Kept(w) && Can(w, step)
    ensures Kept(Moved(w, Speaks(step)))
  {
    hide Replication.Inv, Pins.Inv, Announced, Entries, ShowsQuery, Rebuilds, ReadBy, Replication.Next;
    Replication.NextKeeps(w.r, step);
    if step.Restart? {
      RestartKeeps(w, step);
    } else {
      StepReadBy(w, step);
    }
  }

  lemma RestartKeeps(w: Whole, step: Replication.Step)
    requires Kept(w) && Can(w, step) && step.Restart?
    ensures var t := Moved(w, Speaks(step));
            Pins.Inv(t.p) && (forall k :: k in t.ledgers ==> k.0 != t.r.epoch) && ReadBy(t.r, t.p.revision) && t.ledgers == w.ledgers
  {
    hide Replication.Inv, Announced, Entries;
  }

  lemma MoveKeeps(w: Whole, move: Move)
    requires Kept(w)
    ensures Kept(Moved(w, move)) && Grown(w.ledgers, Moved(w, move).ledgers)
  {
    hide Kept, Can, Pinned, Replication.Next, Pins.Next;
    match move
    case Serves(act) => ServeKeeps(w, act);
    case Locks => LockKeeps(w);
    case Speaks(step) => if Can(w, step) { SpeakKeeps(w, step); }
  }

  lemma LockKeeps(w: Whole)
    requires Kept(w)
    ensures Kept(Moved(w, Locks))
  {
    hide Replication.Inv, Pins.Inv, Announced, Entries, ReadBy;
  }

  /* ---- Every run ---- */

  lemma ShownStays(a: Ledgers, b: Ledgers, v: Snapshot)
    requires Grown(a, b) && ShowsQuery(a, v)
    ensures ShowsQuery(b, v)
  {
    hide Shows;
  }

  lemma RebuiltStays(a: Ledgers, b: Ledgers, prior: Snapshot, v: Snapshot)
    requires Grown(a, b) && Rebuilds(a, prior, v)
    ensures Rebuilds(b, prior, v)
  {
    hide Shows, ScopeFor, Merged;
    var found :| BuiltOn(a, prior, v, found);
    assert BuiltOn(b, prior, v, found);
  }

  lemma GenuineStays(a: Ledgers, b: Ledgers, s: Replication.System, step: Replication.Step)
    requires Grown(a, b) && Genuinely(a, s, step)
    ensures Genuinely(b, s, step)
  {
    hide ShowsQuery, Rebuilds, Grown;
    match step
    case Get(built, _) => ShownStays(a, b, built);
    case Push(key, next, _, _) =>
      if next.Some? && key in s.store.entries {
        RebuiltStays(a, b, s.store.entries[key].value, next.value);
      }
    case _ =>
  }

  lemma StepGenuine(w: Whole, step: Replication.Step)
    requires Kept(w) && Can(w, step)
    ensures Genuinely(w.ledgers, w.r, step)
  {
    hide ShowsQuery, Rebuilds, Announced, Replication.Inv, Pins.Inv, IsPinned;
  }

  /** What the pins provide: along every run the ledgers of later data revisions extend those of earlier ones, every build is
      genuine, and the protocol has taken exactly the steps of its trace. */
  lemma {:induction false} PinsProvide(epoch: string, moves: seq<Move>)
    ensures var w := Run(epoch, moves);
            && Kept(w) && w.r == Replication.Run(epoch, Trace(epoch, moves))
            && Announced(w.ledgers) && Truthful(w.ledgers, epoch, Trace(epoch, moves))
  {
    hide Moved, Can, Replication.Next, Announced, Genuinely, Kept;
    if moves == [] {
      StartKept(epoch);
    } else {
      var before, move := moves[..|moves| - 1], moves[|moves| - 1];
      var w := Run(epoch, before);
      PinsProvide(epoch, before);
      MoveKeeps(w, move);
      KeptAnnounced(Run(epoch, moves));
      if move.Speaks? && Can(w, move.step) {
        StepGenuine(w, move.step);
      }
      TraceGrows(epoch, moves);
    }
  }

  lemma StartKept(epoch: string)
    ensures Kept(Run(epoch, [])) && Announced(Run(epoch, []).ledgers) && Run(epoch, []).r == Replication.Start(epoch)
  {
    Replication.InvAlways(epoch, []);
  }

  lemma KeptAnnounced(w: Whole)
    requires Kept(w)
    ensures Announced(w.ledgers)
  {
    hide Announced;
  }

  lemma TruthfulStays(a: Ledgers, b: Ledgers, epoch: string, steps: seq<Replication.Step>)
    requires Grown(a, b) && Truthful(a, epoch, steps)
    ensures Truthful(b, epoch, steps)
  {
    hide Genuinely, Grown, Replication.Run;
    forall i | 0 <= i < |steps| ensures Genuinely(b, Replication.Run(epoch, steps[..i]), steps[i]) {
      GenuineStays(a, b, Replication.Run(epoch, steps[..i]), steps[i]);
    }
  }

  lemma TruthfulSnoc(ledgers: Ledgers, epoch: string, steps: seq<Replication.Step>, step: Replication.Step)
    requires Truthful(ledgers, epoch, steps) && Genuinely(ledgers, Replication.Run(epoch, steps), step)
    ensures Truthful(ledgers, epoch, steps + [step])
    ensures Replication.Run(epoch, steps + [step]) == Replication.Next(Replication.Run(epoch, steps), step)
  {
    hide Genuinely, Replication.Next;
    var longer := steps + [step];
    assert longer[..|steps|] == steps && longer[..|longer| - 1] == steps;
    forall i | 0 <= i < |longer| ensures Genuinely(ledgers, Replication.Run(epoch, longer[..i]), longer[i]) {
      if i < |steps| {
        assert longer[..i] == steps[..i];
      }
    }
  }

  lemma TraceGrows(epoch: string, moves: seq<Move>)
    requires moves != []
    requires var before, move := moves[..|moves| - 1], moves[|moves| - 1];
             var w := Run(epoch, before);
             && w.r == Replication.Run(epoch, Trace(epoch, before)) && Truthful(w.ledgers, epoch, Trace(epoch, before))
             && Grown(w.ledgers, Moved(w, move).ledgers)
             && (move.Speaks? && Can(w, move.step) ==> Genuinely(w.ledgers, w.r, move.step))
    ensures Run(epoch, moves).r == Replication.Run(epoch, Trace(epoch, moves))
    ensures Truthful(Run(epoch, moves).ledgers, epoch, Trace(epoch, moves))
  {
    hide Can, Replication.Next, Replication.Run, Genuinely, Grown, Pinned, Truthful;
    var before, move := moves[..|moves| - 1], moves[|moves| - 1];
    var w, trace := Run(epoch, before), Trace(epoch, before);
    if move.Speaks? && Can(w, move.step) {
      TruthfulSnoc(w.ledgers, epoch, trace, move.step);
    } else {
      assert trace + [] == trace;
    }
    TruthfulStays(w.ledgers, Run(epoch, moves).ledgers, epoch, Trace(epoch, moves));
  }

  /** From the ingest to the page: under every interleaving of commits and marks, readers, full answers, rebuilds, evictions,
      restarts, and answers and patches that are lost, repeated and reordered, the rows on the page are exactly the
      conversations with usage in the view's window, with their tokens, in the ledger that was pinned with its data revision. */
  lemma PageShowsPinned(epoch: string, moves: seq<Move>)
    requires Run(epoch, moves).r.browser.Some?
    ensures var w := Run(epoch, moves);
            var b := w.r.browser.value;
            && (b.head.epoch, b.head.dataRevision) in w.ledgers
            && ShowsByKey(Browser.RowMap(b.sessions), w.ledgers[(b.head.epoch, b.head.dataRevision)], b.head.rangeStart, b.head.rangeEnd)
            && (b.head.epoch == w.r.epoch ==>
                  exists p :: p in w.p.pins && p.revision == b.head.dataRevision
                              && w.ledgers[(b.head.epoch, b.head.dataRevision)] == Entries(p.ledger))
  {
    hide Run, Trace, Announced, Truthful, Pins.Inv, Replication.Inv, ShowsByKey, ReadBy, Entries;
    PinsProvide(epoch, moves);
    var w := Run(epoch, moves);
    PageShowsQuery(w.ledgers, epoch, Trace(epoch, moves));
    var b := w.r.browser.value;
    if b.head.epoch == w.r.epoch {
      assert IsPinned(w, (b.head.epoch, b.head.dataRevision));
    }
  }

  /* ---- A view of everything is what the sessions hold ---- */

  lemma {:induction false} WholeWindowTotal(rows: seq<Ledger.LedgerRow>, start: Wire.Instant, end: Wire.Instant, c: Ledger.Conversation)
    requires forall i :: 0 <= i < |rows| ==> start <= rows[i].at < end
    ensures var t := KeyTotal(Entries(rows), start, end, c);
            && (t.Some? <==> exists i :: 0 <= i < |rows| && (rows[i].hostId, rows[i].conversationId) == c)
            && (if t.Some? then t.value else Wire.ZERO) == LedgerProofs.ConversationTotals(rows, c)
  {
    if rows != [] {
      var before, r := rows[..|rows| - 1], rows[|rows| - 1];
      WholeWindowTotal(before, start, end, c);
      assert Entries(rows)[..|before|] == Entries(before);
      assert forall i :: 0 <= i < |before| ==> before[i] == rows[i];
      if i :| 0 <= i < |rows| && (rows[i].hostId, rows[i].conversationId) == c {
        assert i < |before| ==> before[i] == rows[i];
      }
    }
  }

  /** Over every run of uploads: a full query whose window holds every row lists exactly the conversations that were charged
      anything, each with the six totals its session has. */
  lemma WholeWindowIsSessions(events: seq<Wire.UsageEvent>, list: seq<Row>, start: Wire.Instant, end: Wire.Instant)
    requires forall i :: 0 <= i < |events| ==> Wire.ValidUsageEvent(events[i])
    requires var rows := Ledger.ApplyAll(Ledger.EMPTY, events).usage;
             && (forall i :: 0 <= i < |rows| ==> start <= rows[i].at < end)
             && Shows(list, Entries(rows), start, end, None)
    ensures var t := Ledger.ApplyAll(Ledger.EMPTY, events);
            && (forall r :: r in list ==> r.key in t.sessions && r.counts == t.sessions[r.key].totals)
            && (forall c :: c in t.sessions && t.sessions[c].totals != Wire.ZERO ==> Listed(list, c))
  {
    hide Ledger.ApplyAll, KeyTotal, Wire.ValidUsageEvent;
    var t := Ledger.ApplyAll(Ledger.EMPTY, events);
    LedgerProofs.LedgerInvariant(events);
    forall c ensures KeyTotal(Entries(t.usage), start, end, c).Some? ==> c in t.sessions {
      WholeWindowTotal(t.usage, start, end, c);
      if i :| 0 <= i < |t.usage| && (t.usage[i].hostId, t.usage[i].conversationId) == c {
        LedgerProofs.ChargedHasSession(events, i);
      }
    }
    forall c ensures LedgerProofs.SessionTotals(t.sessions, c)
                     == if KeyTotal(Entries(t.usage), start, end, c).Some? then KeyTotal(Entries(t.usage), start, end, c).value else Wire.ZERO {
      WholeWindowTotal(t.usage, start, end, c);
    }
  }
}
