/** Why a reader's ledger and its data revision belong together (snapshot_reader.go and the locking in server.go):
    the interleavings of one ingest at a time, other marks, and any number of readers. */
module Pins {
  import opened Ledger

  // Where the ingest that holds the view lock is; `Unmarked`: committed a change that it has yet to announce.
  datatype Writer = Free | Holding | Unmarked | Finished

  datatype Reader = Waiting | Locked | Queried(ledger: seq<LedgerRow>) | Read(ledger: seq<LedgerRow>, revision: int) | Done

  // What a snapshot is built from.
  datatype Pin = Pin(revision: int, ledger: seq<LedgerRow>)

  datatype State = State(
    ledger: seq<LedgerRow>,
    revision: int,
    announced: nat,            // history: how many of the committed rows a mark has announced
    writer: Writer,
    readers: map<int, Reader>,
    pins: set<Pin>)

  /** A server that has just started, on the ledger it finds. */
  function Start(ledger: seq<LedgerRow>): State { State(ledger, 0, |ledger|, Free, map[], {}) }

  datatype Step =
    | Acquire                                              // the ingest takes the lock
    | Commit(rows: seq<LedgerRow>, metadata: bool)         // its transaction appends rows, or touches metadata only
    | RollBack
    | Mark                                                 // it announces the change
    | Release
    | OtherMark                                            // a due window or an administrative change: no lock held
    | Arrive(reader: int)                                  // a reader begins its transaction, which has no snapshot yet
    | ReadLock(reader: int)
    | Query(reader: int)                                   // its first query fixes the snapshot
    | ReadRevision(reader: int)
    | Unlock(reader: int)

  predicate HoldsLock(r: Reader) { r.Locked? || r.Queried? || r.Read? }

  predicate Is(s: State, reader: int, r: Reader) { reader in s.readers && s.readers[reader] == r }

  /** One step; a step that cannot happen changes nothing. */
  function Next(s: State, step: Step): State {
    match step
    case Acquire =>
      if s.writer.Free? && forall r :: r in s.readers ==> !HoldsLock(s.readers[r]) then s.(writer := Holding) else s
    case Commit(rows, metadata) =>
      if s.writer.Holding? then
        s.(ledger := s.ledger + rows, writer := if rows != [] || metadata then Unmarked else Finished)
      else s
    case RollBack => if s.writer.Holding? then s.(writer := Finished) else s
    case Mark => if s.writer.Unmarked? then s.(revision := s.revision + 1, announced := |s.ledger|, writer := Finished) else s
    case Release => if s.writer.Finished? then s.(writer := Free) else s
    case OtherMark => s.(revision := s.revision + 1)
    case Arrive(r) => if r !in s.readers then s.(readers := s.readers[r := Waiting]) else s
    case ReadLock(r) => if Is(s, r, Waiting) && s.writer.Free? then s.(readers := s.readers[r := Locked]) else s
    case Query(r) => if Is(s, r, Locked) then s.(readers := s.readers[r := Queried(s.ledger)]) else s
    case ReadRevision(r) =>
      if r in s.readers && s.readers[r].Queried? then s.(readers := s.readers[r := Read(s.readers[r].ledger, s.revision)]) else s
    case Unlock(r) =>
      if r in s.readers && s.readers[r].Read? then
        s.(readers := s.readers[r := Done], pins := s.pins + {Pin(s.readers[r].revision, s.readers[r].ledger)})
      else s
  }

  function Run(ledger: seq<LedgerRow>, steps: seq<Step>): State {
    if steps == [] then Start(ledger) else Next(Run(ledger, steps[..|steps| - 1]), steps[|steps| - 1])
  }

  /* ---- The invariant ---- */

  /** Two pins agree: the older one is a prefix of the newer, and pins of one revision are the same. */
  ghost predicate Agree(p: Pin, q: Pin) {
    (p.revision <= q.revision ==> p.ledger <= q.ledger) && (p.revision == q.revision ==> p.ledger == q.ledger)
  }

  /** A pin lies within what was announced, and has all of it if it is of the present revision. */
  ghost predicate Fits(p: Pin, s: State)
    requires s.announced <= |s.ledger|
  {
    p.revision <= s.revision && p.ledger <= s.ledger[..s.announced] && (p.revision == s.revision ==> p.ledger == s.ledger[..s.announced])
  }

  ghost predicate ReaderFits(r: Reader, s: State)
    requires s.announced <= |s.ledger|
  {
    match r
    case Queried(l) => l == s.ledger
    case Read(l, n) => Fits(Pin(n, l), s) && l == s.ledger && forall p :: p in s.pins ==> Agree(p, Pin(n, l)) && Agree(Pin(n, l), p)
    case _ => true
  }

  ghost predicate Inv(s: State) {
    && s.announced <= |s.ledger| && (!s.writer.Unmarked? ==> s.announced == |s.ledger|)
    && (!s.writer.Free? ==> forall r :: r in s.readers ==> !HoldsLock(s.readers[r]))
    && (forall r :: r in s.readers ==> ReaderFits(s.readers[r], s))
    && (forall p :: p in s.pins ==> Fits(p, s))
    && (forall p, q :: p in s.pins && q in s.pins ==> Agree(p, q))
  }

  lemma WholeLedger(s: State)
    requires s.announced == |s.ledger|
    ensures s.ledger[..s.announced] == s.ledger
  {
  }

  lemma CommitKeeps(s: State, rows: seq<LedgerRow>, metadata: bool)
    requires Inv(s)
    ensures Inv(Next(s, Commit(rows, metadata)))
  {
    var t := Next(s, Commit(rows, metadata));
    if s.writer.Holding? {
      WholeLedger(s);
    }
    assert s.writer.Holding? ==> t.ledger[..t.announced] == s.ledger[..s.announced];
    assert s.ledger + [] == s.ledger;
  }

  lemma MarkKeeps(s: State)
    requires Inv(s)
    ensures Inv(Next(s, Mark))
  {
    var t := Next(s, Mark);
    WholeLedger(t.(announced := |t.ledger|));
    assert s.ledger[..s.announced] <= s.ledger;
  }

  lemma ReadKeeps(s: State, r: int)
    requires Inv(s)
    ensures Inv(Next(s, ReadRevision(r)))
  {
    if r in s.readers && s.readers[r].Queried? {
      assert s.writer.Free?;
      WholeLedger(s);
      assert ReaderFits(s.readers[r], s);
      forall p | p in s.pins ensures Agree(p, Pin(s.revision, s.ledger)) && Agree(Pin(s.revision, s.ledger), p) {
        assert Fits(p, s);
      }
    }
  }

  lemma NextKeeps(s: State, step: Step)
    requires Inv(s)
    ensures Inv(Next(s, step))
  {
    match step
    case Commit(rows, metadata) => CommitKeeps(s, rows, metadata);
    case Mark => MarkKeeps(s);
    case ReadRevision(r) => ReadKeeps(s, r);
    case Unlock(r) =>
      if r in s.readers && s.readers[r].Read? {
        assert ReaderFits(s.readers[r], s);
        UnlockKeeps(s, r);
      }
    case _ =>
  }

  lemma UnlockKeeps(s: State, r: int)
    requires Inv(s) && r in s.readers && s.readers[r].Read?
    ensures Inv(Next(s, Unlock(r)))
  {
    var t, mine := Next(s, Unlock(r)), Pin(s.readers[r].revision, s.readers[r].ledger);
    assert ReaderFits(s.readers[r], s);
    forall other | other in t.readers ensures ReaderFits(t.readers[other], t) {
      if other != r && s.readers[other].Read? {
        assert ReaderFits(s.readers[other], s);
        OneLedger(mine, Pin(s.readers[other].revision, s.readers[other].ledger));
      }
    }
  }

  lemma OneLedger(p: Pin, q: Pin)
    requires p.ledger == q.ledger
    ensures Agree(p, q) && Agree(q, p)
  {
  }

  lemma {:induction false} InvAlways(ledger: seq<LedgerRow>, steps: seq<Step>)
    ensures Inv(Run(ledger, steps))
  {
    if steps != [] {
      InvAlways(ledger, steps[..|steps| - 1]);
      NextKeeps(Run(ledger, steps[..|steps| - 1]), steps[|steps| - 1]);
    }
  }

  /** In every interleaving two pinned views of one data revision see the same ledger, and the one with the larger
      data revision sees an extension of the other's. */
  lemma CoherentPins(ledger: seq<LedgerRow>, steps: seq<Step>, p: Pin, q: Pin)
    requires p in Run(ledger, steps).pins && q in Run(ledger, steps).pins
    ensures p.revision == q.revision ==> p.ledger == q.ledger
    ensures p.revision < q.revision ==> p.ledger <= q.ledger
  {
    InvAlways(ledger, steps);
    assert Agree(p, q);
  }

  /** Nor does a view ever show a ledger that its revision is behind of: rows that are committed but not yet announced
      are in no pin, and a pin of the present revision has every announced row. */
  lemma NothingUnannounced(ledger: seq<LedgerRow>, steps: seq<Step>, p: Pin)
    requires p in Run(ledger, steps).pins
    ensures var s := Run(ledger, steps);
            && s.announced <= |s.ledger| && (s.writer.Unmarked? || s.announced == |s.ledger|)
            && p.ledger <= s.ledger[..s.announced]
            && (p.revision == s.revision ==> p.ledger == s.ledger[..s.announced])
  {
    InvAlways(ledger, steps);
    assert Fits(p, Run(ledger, steps));
  }
}
