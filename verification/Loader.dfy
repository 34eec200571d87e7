/** The single-flight loader of the dashboard (createRangeLoader in web/app.js). */
module Loader {
  import opened Wrappers

  datatype Call = Call(query: string, replace: bool)

  // The request in progress: its ticket, what it asks for, and whether its controller has been aborted.
  datatype Request = Request(ticket: int, call: Call, aborted: bool)

  // How a request ends: with usable data, with an answer that reports an error, or with an exception — a refused
  // status, a broken connection, or the abort.
  datatype Outcome = Data(data: string) | Unavailable | Thrown

  datatype Status = Loading(replace: bool) | Ready(replace: bool) | Error(replace: bool)

  datatype State = State(
    sequence: int,
    current: Option<Request>,
    pending: Option<Call>,
    requests: seq<Call>,       // everything fetched so far
    rendered: seq<string>,     // everything handed to the page so far
    statuses: seq<Status>)

  const IDLE := State(0, None, None, [], [], [])

  datatype Step = Load(call: Call) | Cancel | Timeout | Settle(outcome: Outcome)

  function Begin(s: State, call: Call): State {
    s.(sequence := s.sequence + 1, current := Some(Request(s.sequence + 1, call, false)),
       requests := s.requests + [call], statuses := s.statuses + [Loading(call.replace)])
  }

  function Aborted(current: Option<Request>): Option<Request> {
    if current.Some? then Some(current.value.(aborted := true)) else None
  }

  /** What the request does with its outcome, before it makes way for the next. */
  function Report(s: State, r: Request, outcome: Outcome): State {
    if outcome.Data? then
      if r.ticket != s.sequence || r.aborted then s
      else s.(rendered := s.rendered + [outcome.data], statuses := s.statuses + [Ready(r.call.replace)])
    else if outcome.Unavailable? && (r.ticket != s.sequence || r.aborted) then s
    else if r.ticket == s.sequence then s.(statuses := s.statuses + [Error(r.call.replace)])
    else s
  }

  /** One step; settling and timing out need a request in progress. */
  function Next(s: State, step: Step): State {
    match step
    case Load(call) =>
      if s.current.None? then Begin(s, call)
      else if call.replace then s.(pending := Some(call), sequence := s.sequence + 1, current := Aborted(s.current))
      else s.(pending := Some(call))
    case Cancel => s.(sequence := s.sequence + 1, pending := None, current := Aborted(s.current))
    case Timeout => s.(current := Aborted(s.current))
    case Settle(outcome) =>
      if s.current.None? then s
      else
        var done := Report(s, s.current.value, outcome).(current := None);
        if done.pending.Some? then Begin(done.(pending := None), done.pending.value) else done
  }

  function Run(steps: seq<Step>): State {
    if steps == [] then IDLE else Next(Run(steps[..|steps| - 1]), steps[|steps| - 1])
  }

  class RangeLoader {
    var sequence: int
    var current: Option<Request>
    var pending: Option<Call>
    var requests: seq<Call>
    var rendered: seq<string>
    var statuses: seq<Status>

    function Contents(): State
      reads this
    {
      State(sequence, current, pending, requests, rendered, statuses)
    }

    constructor ()
      ensures Contents() == IDLE
    {
      sequence, current, pending := 0, None, None;
      requests, rendered, statuses := [], [], [];
    }

    method Load(query: string, replace: bool)
      modifies this
      ensures Contents() == Next(old(Contents()), Step.Load(Call(query, replace)))
    {
      if current.Some? {
        pending := Some(Call(query, replace));
        if replace {
          sequence := sequence + 1;
          Abort();
        }
        return;
      }
      sequence := sequence + 1;
      current := Some(Request(sequence, Call(query, replace), false));
      statuses := statuses + [Loading(replace)];
      requests := requests + [Call(query, replace)];
    }

    method Abort()
      modifies this`current
      ensures current == Aborted(old(current))
    {
      if current.Some? {
        current := Some(current.value.(aborted := true));
      }
    }

    method Cancel()
      modifies this
      ensures Contents() == Next(old(Contents()), Step.Cancel)
    {
      sequence, pending := sequence + 1, None;
      Abort();
    }

    method Timeout()
      modifies this
      ensures Contents() == Next(old(Contents()), Step.Timeout)
    {
      Abort();
    }

    method Settle(outcome: Outcome)
      modifies this
      ensures Contents() == Next(old(Contents()), Step.Settle(outcome))
    {
      if current.None? {
        return;
      }
      var r := current.value;
      var live := r.ticket == sequence && !r.aborted;
      if outcome.Data? && live {
        rendered := rendered + [outcome.data];
        statuses := statuses + [Ready(r.call.replace)];
      } else if (outcome.Thrown? || (outcome.Unavailable? && live)) && r.ticket == sequence {
        statuses := statuses + [Error(r.call.replace)];
      }
      current := None;
      if pending.Some? {
        var next := pending.value;
        pending := None;
        Load(next.query, next.replace);
      }
    }
  }

  /* ---- What happened, told from the calls alone ---- */

  // When the request in progress was begun, and for which call.
  datatype Flight = Flight(since: nat, call: Call)

  /** The last load since the last cancel. */
  function LastCall(steps: seq<Step>): Option<Call> {
    if steps == [] then None
    else
      match steps[|steps| - 1]
      case Load(call) => Some(call)
      case Cancel => None
      case _ => LastCall(steps[..|steps| - 1])
  }

  predicate Supersedes(step: Step) { step.Cancel? || (step.Load? && step.call.replace) }

  predicate Superseded(steps: seq<Step>) { exists i :: 0 <= i < |steps| && Supersedes(steps[i]) }

  predicate TimedOut(steps: seq<Step>) { exists i :: 0 <= i < |steps| && steps[i].Timeout? }

  function InFlight(steps: seq<Step>): (f: Option<Flight>)
    ensures f.Some? ==> f.value.since < |steps|
  {
    if steps == [] then None
    else
      var n := |steps| - 1;
      var before := InFlight(steps[..n]);
      match steps[n]
      case Load(call) => if before.None? then Some(Flight(n, call)) else before
      case Settle(_) =>
        if before.None? then None
        else
          var trailing := LastCall(steps[before.value.since + 1..n]);
          if trailing.Some? then Some(Flight(n, trailing.value)) else None
      case _ => before
  }

  /** The steps taken since the request in progress was begun. */
  function Tail(steps: seq<Step>): seq<Step> {
    var f := InFlight(steps);
    if f.Some? then steps[f.value.since + 1..] else []
  }

  ghost predicate Accounts(steps: seq<Step>) {
    var s, f, tail := Run(steps), InFlight(steps), Tail(steps);
    && (s.current.Some? <==> f.Some?)
    && s.pending == LastCall(tail)
    && (s.current.Some? ==>
          var r := s.current.value;
          && r.call == f.value.call && r.ticket <= s.sequence
          && (r.ticket == s.sequence <==> !Superseded(tail))
          && (r.aborted <==> Superseded(tail) || TimedOut(tail)))
  }

  lemma TailGrows(tail: seq<Step>, step: Step)
    ensures Superseded(tail + [step]) <==> Superseded(tail) || Supersedes(step)
    ensures TimedOut(tail + [step]) <==> TimedOut(tail) || step.Timeout?
    ensures LastCall(tail + [step]) == match step case Load(call) => Some(call) case Cancel => None case _ => LastCall(tail)
  {
    var more := tail + [step];
    assert more[|tail|] == step && more[..|tail|] == tail && forall i :: 0 <= i < |tail| ==> more[i] == tail[i];
    if Superseded(tail) {
      var i :| 0 <= i < |tail| && Supersedes(tail[i]);
      assert Supersedes(more[i]);
    }
    if TimedOut(tail) {
      var i :| 0 <= i < |tail| && tail[i].Timeout?;
      assert more[i].Timeout?;
    }
  }

  /** The loader's three variables say no more and no less than the history of calls does. */
  lemma {:induction false} AccountsAlways(steps: seq<Step>)
    ensures Accounts(steps)
  {
    if steps == [] {
      NothingCalled();
    } else {
      AccountsAlways(steps[..|steps| - 1]);
      AccountsStep(steps[..|steps| - 1], steps[|steps| - 1]);
      assert steps == steps[..|steps| - 1] + [steps[|steps| - 1]];
    }
  }

  lemma NothingCalled()
    ensures LastCall([]) == None && !Superseded([]) && !TimedOut([])
  {
  }

  lemma AccountsStep(before: seq<Step>, step: Step)
    requires Accounts(before)
    ensures Accounts(before + [step])
  {
    hide LastCall, Superseded, TimedOut;
    var steps := before + [step];
    assert steps[..|before|] == before && steps[|before|] == step && steps[|steps|..] == [];
    NothingCalled();
    if InFlight(before).Some? {
      var i := InFlight(before).value.since;
      TailGrows(before[i + 1..], step);
      assert steps[i + 1..] == before[i + 1..] + [step] && steps[i + 1..|before|] == before[i + 1..];
    }
  }

  /** An answer reaches the page exactly when its request was neither superseded — by a replacing load or a cancel —
      nor timed out since it was begun. */
  lemma RenderedIffCurrent(steps: seq<Step>, data: string)
    ensures Run(steps + [Settle(Data(data))]).rendered ==
            if InFlight(steps).Some? && !Superseded(Tail(steps)) && !TimedOut(Tail(steps))
            then Run(steps).rendered + [data] else Run(steps).rendered
  {
    AccountsAlways(steps);
    assert (steps + [Settle(Data(data))])[..|steps|] == steps;
  }

  /** What the page is told as a request ends: ready exactly if its data is rendered; an error if it was not superseded and either
      failed — a timeout included — or came back in time saying that there is no data; and that the next one is loading. */
  lemma ToldExactly(steps: seq<Step>, outcome: Outcome)
    requires InFlight(steps).Some?
    ensures var replace, current := InFlight(steps).value.call.replace, !Superseded(Tail(steps));
            var trailing := LastCall(Tail(steps));
            Run(steps + [Settle(outcome)]).statuses == Run(steps).statuses
              + (if current && outcome.Data? && !TimedOut(Tail(steps)) then [Ready(replace)]
                 else if current && (outcome.Thrown? || (outcome.Unavailable? && !TimedOut(Tail(steps)))) then [Error(replace)]
                 else [])
              + (if trailing.Some? then [Loading(trailing.value.replace)] else [])
  {
    AccountsAlways(steps);
    assert (steps + [Settle(outcome)])[..|steps|] == steps;
  }

  /** However many loads were called during a request, it is followed by exactly one request, for the last of them —
      or by none, when there was no load since the last cancel. */
  lemma OneTrailingRequest(steps: seq<Step>, outcome: Outcome)
    requires InFlight(steps).Some?
    ensures Run(steps + [Settle(outcome)]).requests ==
            var trailing := LastCall(Tail(steps));
            if trailing.Some? then Run(steps).requests + [trailing.value] else Run(steps).requests
  {
    AccountsAlways(steps);
    assert (steps + [Settle(outcome)])[..|steps|] == steps;
  }

  function Settled(steps: seq<Step>): nat {
    if steps == [] then 0
    else
      var before := steps[..|steps| - 1];
      Settled(before) + if steps[|steps| - 1].Settle? && InFlight(before).Some? then 1 else 0
  }

  /** At most one request is in flight: all but the current one have settled. */
  lemma {:induction false} SingleFlight(steps: seq<Step>)
    ensures |Run(steps).requests| == Settled(steps) + if Run(steps).current.Some? then 1 else 0
  {
    if steps != [] {
      SingleFlight(steps[..|steps| - 1]);
      AccountsAlways(steps[..|steps| - 1]);
    }
  }
}
