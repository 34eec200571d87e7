/** What the page may say about its connection (connectionClock in web/realtime.js). */
module Connection {
  import opened Wrappers
  import Browser

  datatype Config = Config(delayed: int, offline: int)

  datatype Health = Offline | Delayed | Verifying | Online

  datatype State = State(
    created: int,
    isOpen: bool,
    generation: int,             // how many times the stream was opened
    heartbeatGeneration: int,    // during which of them the last heartbeat came
    heartbeatAt: Option<int>,
    expectedEpoch: string,
    expectedRevision: int,
    appliedEpoch: string,
    appliedRevision: int)

  datatype Step =
    | Open
    | Close                                                    // closed by the page, or failed
    | Heartbeat(epoch: string, revision: int, at: int)
    | Applied(epoch: string, revision: int)

  function Begin(created: int): State { State(created, false, 0, -1, None, "", 0, "", -1) }

  predicate Heard(step: Step) { step.Heartbeat? && step.epoch != "" && Browser.Safe(step.revision) }

  function Next(s: State, step: Step): State {
    match step
    case Open => s.(isOpen := true, generation := s.generation + 1)
    case Close => s.(isOpen := false)
    case Heartbeat(epoch, revision, at) =>
      if !Heard(step) then s
      else
        var floor := if s.expectedEpoch != epoch then 0 else s.expectedRevision;
        s.(expectedEpoch := epoch, expectedRevision := if floor < revision then revision else floor,
           heartbeatAt := Some(at), heartbeatGeneration := s.generation)
    case Applied(epoch, revision) => s.(appliedEpoch := epoch, appliedRevision := revision)
  }

  function HealthAt(s: State, c: Config, now: int): Health {
    var age := now - if s.heartbeatAt.Some? then s.heartbeatAt.value else s.created;
    if age >= c.offline then Offline
    else if age >= c.delayed then Delayed
    else if !s.isOpen || s.heartbeatGeneration != s.generation then Verifying
    else Online
  }

  predicate Synced(s: State, c: Config, now: int) {
    HealthAt(s, c, now).Online? && s.appliedEpoch == s.expectedEpoch && s.appliedRevision >= s.expectedRevision
  }

  function Run(created: int, steps: seq<Step>): State {
    if steps == [] then Begin(created) else Next(Run(created, steps[..|steps| - 1]), steps[|steps| - 1])
  }

  class ConnectionClock {
    const created: int
    var isOpen: bool
    var generation: int
    var heartbeatGeneration: int
    var heartbeatAt: Option<int>
    var expectedEpoch: string
    var expectedRevision: int
    var appliedEpoch: string
    var appliedRevision: int

    function Contents(): State
      reads this
    {
      State(created, isOpen, generation, heartbeatGeneration, heartbeatAt, expectedEpoch, expectedRevision, appliedEpoch, appliedRevision)
    }

    constructor (now: int)
      ensures Contents() == Begin(now)
    {
      created, isOpen, generation, heartbeatGeneration, heartbeatAt := now, false, 0, -1, None;
      expectedEpoch, expectedRevision, appliedEpoch, appliedRevision := "", 0, "", -1;
    }

    method Open()
      modifies this
      ensures Contents() == Next(old(Contents()), Step.Open)
    {
      isOpen, generation := true, generation + 1;
    }

    method Close()
      modifies this
      ensures Contents() == Next(old(Contents()), Step.Close)
    {
      isOpen := false;
    }

    method Heartbeat(epoch: string, revision: int, now: int) returns (ok: bool)
      modifies this
      ensures ok <==> Heard(Step.Heartbeat(epoch, revision, now))
      ensures Contents() == Next(old(Contents()), Step.Heartbeat(epoch, revision, now))
    {
      if epoch == "" || !Browser.Safe(revision) {
        return false;
      }
      if expectedEpoch != epoch {
        expectedRevision := 0;
      }
      expectedEpoch := epoch;
      if expectedRevision < revision {
        expectedRevision := revision;
      }
      heartbeatAt, heartbeatGeneration := Some(now), generation;
      return true;
    }

    method Applied(epoch: string, revision: int)
      modifies this
      ensures Contents() == Next(old(Contents()), Step.Applied(epoch, revision))
    {
      appliedEpoch, appliedRevision := epoch, revision;
    }
  }

  /* ---- What the two words mean ---- */

  /** The last heartbeat that was understood. */
  function LastHeard(steps: seq<Step>): (last: Option<Step>)
    ensures last.Some? ==> Heard(last.value)
  {
    if steps == [] then None
    else if Heard(steps[|steps| - 1]) then Some(steps[|steps| - 1])
    else LastHeard(steps[..|steps| - 1])
  }

  /** The stream is open, and a heartbeat has come since it was last opened. */
  predicate LiveStream(steps: seq<Step>) { IsOpen(steps) && HeardSinceOpen(steps) }

  predicate IsOpen(steps: seq<Step>) {
    steps != [] &&
    match steps[|steps| - 1]
    case Open => true
    case Close => false
    case _ => IsOpen(steps[..|steps| - 1])
  }

  predicate HeardSinceOpen(steps: seq<Step>) {
    steps != [] && !steps[|steps| - 1].Open? && (Heard(steps[|steps| - 1]) || HeardSinceOpen(steps[..|steps| - 1]))
  }

  /** The revisions named by heartbeats since the server's epoch last changed. */
  function Announced(steps: seq<Step>): set<int> {
    if steps == [] then {}
    else
      var before, step := steps[..|steps| - 1], steps[|steps| - 1];
      if !Heard(step) then Announced(before)
      else if LastHeard(before).Some? && LastHeard(before).value.epoch == step.epoch then Announced(before) + {step.revision}
      else {step.revision}
  }

  function LastApplied(steps: seq<Step>): (last: Option<Step>)
    ensures last.Some? ==> last.value.Applied?
  {
    if steps == [] then None
    else if steps[|steps| - 1].Applied? then Some(steps[|steps| - 1])
    else LastApplied(steps[..|steps| - 1])
  }

  ghost predicate Accounts(created: int, steps: seq<Step>) {
    var s, heard, applied := Run(created, steps), LastHeard(steps), LastApplied(steps);
    && s.isOpen == IsOpen(steps) && 0 <= s.generation && s.heartbeatGeneration <= s.generation
    && (s.heartbeatGeneration == s.generation <==> HeardSinceOpen(steps))
    && (heard.None? ==> s.heartbeatAt.None? && s.expectedEpoch == "" && s.expectedRevision == 0)
    && (heard.Some? ==> s.heartbeatAt == Some(heard.value.at) && s.expectedEpoch == heard.value.epoch)
    && 0 <= s.expectedRevision
    && (forall n :: n in Announced(steps) ==> n <= s.expectedRevision)
    && (s.expectedRevision == 0 || s.expectedRevision in Announced(steps))
    && (applied.None? ==> s.appliedRevision == -1)
    && (applied.Some? ==> s.appliedEpoch == applied.value.epoch && s.appliedRevision == applied.value.revision)
  }

  lemma {:induction false} AccountsAlways(created: int, steps: seq<Step>)
    ensures Accounts(created, steps)
  {
    if steps != [] {
      AccountsAlways(created, steps[..|steps| - 1]);
    }
  }

  /** The page says it is online exactly when the stream is open, a heartbeat has come since it was opened, and the
      last one is younger than both limits. */
  lemma OnlineMeans(created: int, steps: seq<Step>, c: Config, now: int)
    ensures HealthAt(Run(created, steps), c, now).Online? <==>
              && LiveStream(steps)
              && LastHeard(steps).Some?
              && now - LastHeard(steps).value.at < c.delayed && now - LastHeard(steps).value.at < c.offline
  {
    AccountsAlways(created, steps);
    HeardAtAll(steps);
  }

  /** What else it may say: offline once it has not heard anything for the longer of its patience, since the page began if it
      never has; delayed before that, past the shorter; and still verifying while it has not heard anything on the open
      stream. */
  lemma HealthMeans(created: int, steps: seq<Step>, c: Config, now: int)
    requires c.delayed <= c.offline
    ensures var silence := now - if LastHeard(steps).Some? then LastHeard(steps).value.at else created;
            HealthAt(Run(created, steps), c, now) ==
              if c.offline <= silence then Offline
              else if c.delayed <= silence then Delayed
              else if LiveStream(steps) then Online
              else Verifying
  {
    AccountsAlways(created, steps);
    CreatedStays(created, steps);
  }

  lemma {:induction false} CreatedStays(created: int, steps: seq<Step>)
    ensures Run(created, steps).created == created
  {
    if steps != [] {
      CreatedStays(created, steps[..|steps| - 1]);
    }
  }

  lemma {:induction false} HeardAtAll(steps: seq<Step>)
    ensures HeardSinceOpen(steps) ==> LastHeard(steps).Some?
  {
    if steps != [] {
      HeardAtAll(steps[..|steps| - 1]);
    }
  }

  /** It says it is in sync exactly when it is online, what it shows comes from the server run that the last
      heartbeat named, and no heartbeat of that run has named a later revision. */
  lemma SyncedMeans(created: int, steps: seq<Step>, c: Config, now: int)
    ensures Synced(Run(created, steps), c, now) <==>
              && HealthAt(Run(created, steps), c, now).Online?
              && LastHeard(steps).Some? && LastApplied(steps).Some?
              && LastApplied(steps).value.epoch == LastHeard(steps).value.epoch
              && 0 <= LastApplied(steps).value.revision
              && forall n :: n in Announced(steps) ==> n <= LastApplied(steps).value.revision
  {
    AccountsAlways(created, steps);
    OnlineMeans(created, steps, c, now);
    var s, applied := Run(created, steps), LastApplied(steps);
    assert Accounts(created, steps);
    if Synced(s, c, now) {
      assert LastHeard(steps).Some?;
      assert applied.Some?;
      assert applied.value.epoch == LastHeard(steps).value.epoch;
    } else if applied.Some? && HealthAt(s, c, now).Online? && applied.value.epoch == LastHeard(steps).value.epoch && 0 <= applied.value.revision {
      assert s.expectedRevision in Announced(steps);
    }
  }
}
