/** The event hub (hub.go): marks, and one-slot channels in which the newest frame wins. */
module Hub {
  import opened Wrappers

  // A frame as the hub sees it: an id and a payload it does not look into.
  datatype Frame = Frame(id: int, event: string, data: string)

  datatype Channel = Channel(number: int)
  datatype Client = Client(notify: bool, key: Option<string>)  // the query key of a numeric subscription

  // A channel outlives its client: a publication under way may still send to it.
  datatype State = State(
    sequence: int,
    fullSequence: int,
    dirty: bool,
    clients: map<Channel, Client>,
    slots: map<Channel, Option<Frame>>)

  const QUIET := State(0, 0, false, map[], map[])

  function Marked(h: State, full: bool): State {
    h.(sequence := h.sequence + 1, fullSequence := if full then h.fullSequence + 1 else h.fullSequence, dirty := true)
  }

  function Joined(h: State, id: Channel, c: Client): State {
    h.(clients := h.clients[id := c], slots := h.slots[id := None])
  }

  function Left(h: State, id: Channel): State { h.(clients := h.clients - {id}) }

  function Emptied(h: State, id: Channel): State { h.(slots := h.slots[id := None]) }

  /** A publication begins: the flag is cleared and the clients of this moment are copied. */
  function Begun(h: State): (State, Option<map<Channel, Client>>) {
    if h.dirty then (h.(dirty := false), Some(h.clients)) else (h, None)
  }

  /** A full slot is emptied first: only the newest frame is useful to a slow reader. */
  function Offer(slot: Option<Frame>, frame: Option<Frame>): Option<Frame> {
    if frame.Some? then frame else slot
  }

  function Offered(h: State, id: Channel, frame: Option<Frame>): State
    requires id in h.slots
  {
    h.(slots := h.slots[id := Offer(h.slots[id], frame)])
  }

  /** What a publication hands a client: the frame of its query, if there is one, or the common one. */
  function FrameFor(c: Client, numbers: map<string, Option<Frame>>, notice: Frame, snapshot: Frame): Option<Frame>
    requires c.key.Some? ==> c.key.value in numbers
  {
    if c.key.Some? then numbers[c.key.value]
    else Some(if c.notify then notice else snapshot)
  }

  lemma WhatIsOffered(copy: map<Channel, Client>, numbers: map<string, Option<Frame>>, notice: Frame, snapshot: Frame,
                      slots: map<Channel, Option<Frame>>)
    requires copy.Keys <= slots.Keys && forall id :: id in copy && copy[id].key.Some? ==> copy[id].key.value in numbers
    ensures forall id :: id in copy ==>
              Offer(slots[id], FrameFor(copy[id], numbers, notice, snapshot)) ==
              match copy[id].key
              case Some(k) => if numbers[k].Some? then numbers[k] else slots[id]
              case None => Some(if copy[id].notify then notice else snapshot)
  {
  }

  /* ---- No mark is lost ---- */

  datatype Step =
    | Mark(full: bool)
    | Join(id: Channel, client: Client)
    | Leave(id: Channel)
    | Take(id: Channel)
    | Begin
    | Send(id: Channel, frame: Option<Frame>)

  function Next(h: State, step: Step): State {
    match step
    case Mark(full) => Marked(h, full)
    case Join(id, c) => if id in h.slots then h else Joined(h, id, c)
    case Leave(id) => Left(h, id)
    case Take(id) => if id in h.slots then Emptied(h, id) else h
    case Begin => Begun(h).0
    case Send(id, frame) => if id in h.slots then Offered(h, id, frame) else h
  }

  function Run(steps: seq<Step>): State {
    if steps == [] then QUIET else Next(Run(steps[..|steps| - 1]), steps[|steps| - 1])
  }

  function Marks(steps: seq<Step>, fullOnly: bool): nat {
    if steps == [] then 0
    else
      var last := steps[|steps| - 1];
      Marks(steps[..|steps| - 1], fullOnly) + if last.Mark? && (fullOnly ==> last.full) then 1 else 0
  }

  /** The sequence counts the marks, the full sequence those that invalidate incremental rebuilds, whatever else happens. */
  lemma {:induction false} SequencesCountMarks(steps: seq<Step>)
    ensures Run(steps).sequence == Marks(steps, false) && Run(steps).fullSequence == Marks(steps, true)
  {
    if steps != [] {
      SequencesCountMarks(steps[..|steps| - 1]);
    }
  }

  /** Mark `i` has not been picked up by a publication yet. */
  predicate Unpublished(steps: seq<Step>, i: nat) {
    i < |steps| && steps[i].Mark? && forall j :: i < j < |steps| ==> !steps[j].Begin?
  }

  /** A mark is picked up by the next publication that begins after it — also one made while a publication is under
      way — and a publication begins only for a mark. */
  lemma {:induction false} NoMarkIsLost(steps: seq<Step>)
    ensures Run(steps).dirty <==> exists i :: Unpublished(steps, i)
  {
    if steps != [] {
      var before, step := steps[..|steps| - 1], steps[|steps| - 1];
      NoMarkIsLost(before);
      if step.Mark? {
        assert Unpublished(steps, |before|);
      } else if !step.Begin? {
        if i: nat :| Unpublished(before, i) {
          assert Unpublished(steps, i);
        }
        if i: nat :| Unpublished(steps, i) {
          assert Unpublished(before, i);
        }
      }
    }
  }

  /** The queries that these clients subscribe to. */
  function Queries(ids: set<Channel>, clients: map<Channel, Client>): set<string>
    requires ids <= clients.Keys
  {
    set id | id in ids && clients[id].key.Some? :: clients[id].key.value
  }

  lemma OneMore(ids: set<Channel>, id: Channel, clients: map<Channel, Client>)
    requires ids <= clients.Keys && id in clients
    ensures Queries(ids + {id}, clients) == Queries(ids, clients) + if clients[id].key.Some? then {clients[id].key.value} else {}
  {
  }

  lemma NoQueries(clients: map<Channel, Client>)
    ensures Queries({}, clients) == {}
  {
  }

  class EventHub {
    var sequence: int
    var fullSequence: int
    var dirty: bool
    var clients: map<Channel, Client>
    var slots: map<Channel, Option<Frame>>

    ghost function Contents(): State
      reads this
    {
      State(sequence, fullSequence, dirty, clients, slots)
    }

    ghost predicate Valid()
      reads this
    {
      clients.Keys <= slots.Keys
    }

    constructor ()
      ensures Valid() && Contents() == QUIET
    {
      sequence, fullSequence, dirty := 0, 0, false;
      clients, slots := map[], map[];
    }

    method Mark()
      requires Valid()
      modifies this`sequence, this`fullSequence, this`dirty
      ensures Valid() && Contents() == Next(old(Contents()), Step.Mark(true))
    {
      sequence, fullSequence, dirty := sequence + 1, fullSequence + 1, true;
    }

    method MarkNumbers()
      requires Valid()
      modifies this`sequence, this`dirty
      ensures Valid() && Contents() == Next(old(Contents()), Step.Mark(false))
    {
      sequence, dirty := sequence + 1, true;
    }

    method Subscribe(id: Channel, c: Client)
      requires Valid() && id !in slots
      modifies this`clients, this`slots
      ensures Valid() && Contents() == Next(old(Contents()), Step.Join(id, c))
    {
      clients, slots := clients[id := c], slots[id := None];
    }

    method Unsubscribe(id: Channel)
      requires Valid()
      modifies this`clients
      ensures Valid() && Contents() == Next(old(Contents()), Step.Leave(id))
    {
      clients := clients - {id};
    }

    /** The connection's turn: takes the waiting frame, if any. */
    method Take(id: Channel) returns (frame: Option<Frame>)
      requires Valid() && id in slots
      modifies this`slots
      ensures Valid() && frame == old(slots)[id] && Contents() == Next(old(Contents()), Step.Take(id))
    {
      frame := slots[id];
      slots := slots[id := None];
    }

    method Send(id: Channel, frame: Option<Frame>)
      requires Valid() && id in slots
      modifies this`slots
      ensures Valid() && Contents() == Next(old(Contents()), Step.Send(id, frame))
    {
      if frame.Some? {
        if slots[id].Some? {
          slots := slots[id := None];
        }
        slots := slots[id := frame];
      }
    }

    /** The first half of a publication, under the lock. The lock is then released: clients come and go, marks are
        made and connections take frames before the second half gets to them. */
    method BeginPublish() returns (copy: Option<map<Channel, Client>>)
      requires Valid()
      modifies this`dirty
      ensures Valid() && (Contents(), copy) == Begun(old(Contents()))
    {
      if !dirty {
        return None;
      }
      dirty := false;
      return Some(clients);
    }

    /** The second half, for the clients that were copied and only those. `numbers` says what each query's turn yields,
        None for nothing new; a turn moves that query's published base, so it is taken once per query, however many
        clients share it. */
    method FinishPublish(copy: map<Channel, Client>, numbers: map<string, Option<Frame>>, notice: Frame, snapshot: Frame)
      returns (turns: seq<string>)
      requires Valid() && copy.Keys <= slots.Keys
      requires forall id :: id in copy && copy[id].key.Some? ==> copy[id].key.value in numbers
      modifies this`slots
      ensures Valid() && slots.Keys == old(slots).Keys
      ensures forall id :: id in slots ==>
                slots[id] == if id in copy then Offer(old(slots)[id], FrameFor(copy[id], numbers, notice, snapshot)) else old(slots)[id]
      // A numeric client gets what its query's turn yields, or keeps what waits; any other gets the common frame of its kind.
      ensures forall id :: id in copy && copy[id].key.Some? ==>
                slots[id] == if numbers[copy[id].key.value].Some? then numbers[copy[id].key.value] else old(slots)[id]
      ensures forall id :: id in copy && copy[id].key.None? ==> slots[id] == Some(if copy[id].notify then notice else snapshot)
      ensures forall i, j :: 0 <= i < j < |turns| ==> turns[i] != turns[j]
      ensures forall k :: k in turns <==> k in Queries(copy.Keys, copy)
    {
      hide Queries, FrameFor, Offer, TurnsTaken;
      turns := [];
      NoQueries(copy);
      var frames: map<string, Option<Frame>> := map[];
      var rest: set<Channel> := copy.Keys;
      ghost var due := map id | id in slots :: if id in copy then Offer(slots[id], FrameFor(copy[id], numbers, notice, snapshot)) else slots[id];
      NoTurns(numbers);
      assert copy.Keys - rest == {};
      while rest != {}
        invariant Valid() && rest <= copy.Keys && slots.Keys == old(slots).Keys
        invariant forall id :: id in slots ==> slots[id] == if id in rest then old(slots)[id] else due[id]
        invariant TurnsTaken(turns, frames, numbers) && frames.Keys == Queries(copy.Keys - rest, copy)
        decreases rest
      {
        var id :| id in rest;
        OneMore(copy.Keys - rest, id, copy);
        assert copy.Keys - rest + {id} == copy.Keys - (rest - {id});
        rest := rest - {id};
        var frame;
        turns, frames, frame := FrameOf(copy[id], turns, frames, numbers, notice, snapshot);
        Send(id, frame);
      }
      assert copy.Keys - {} == copy.Keys;
      TurnsAre(turns, frames, numbers);
      WhatIsOffered(copy, numbers, notice, snapshot, old(slots));
    }

    /** The frame for one client; a query whose turn has not come yet takes it. */
    static method FrameOf(c: Client, turns: seq<string>, frames: map<string, Option<Frame>>, numbers: map<string, Option<Frame>>,
                   notice: Frame, snapshot: Frame)
      returns (turns': seq<string>, frames': map<string, Option<Frame>>, frame: Option<Frame>)
      requires TurnsTaken(turns, frames, numbers) && (c.key.Some? ==> c.key.value in numbers)
      ensures TurnsTaken(turns', frames', numbers)
      ensures frames'.Keys == frames.Keys + if c.key.Some? then {c.key.value} else {}
      ensures frame == FrameFor(c, numbers, notice, snapshot)
    {
      turns', frames' := turns, frames;
      if c.key.None? {
        frame := Some(if c.notify then notice else snapshot);
        return;
      }
      var k := c.key.value;
      if k !in frames {
        turns', frames' := turns + [k], frames[k := numbers[k]];
      }
      frame := frames'[k];
    }
  }

  /** The turns taken so far, each once, and what they yielded. */
  ghost predicate TurnsTaken(turns: seq<string>, frames: map<string, Option<Frame>>, numbers: map<string, Option<Frame>>) {
    && (forall k :: k in frames ==> k in numbers && frames[k] == numbers[k])
    && (forall k :: k in turns <==> k in frames)
    && (forall i, j :: 0 <= i < j < |turns| ==> turns[i] != turns[j])
  }

  lemma NoTurns(numbers: map<string, Option<Frame>>)
    ensures TurnsTaken([], map[], numbers)
  {
  }

  lemma TurnsAre(turns: seq<string>, frames: map<string, Option<Frame>>, numbers: map<string, Option<Frame>>)
    requires TurnsTaken(turns, frames, numbers)
    ensures forall i, j :: 0 <= i < j < |turns| ==> turns[i] != turns[j]
    ensures forall k :: k in turns <==> k in frames.Keys
  {
  }
}
