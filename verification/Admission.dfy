/** The limit on uploads per host (server.go, ingestAllowed): the list of recent admissions, pruned at every call, against
    the whole history of admissions. */
module Admission {
  import opened Wire

  const WINDOW := 1_000_000_000
  const LIMIT := 20

  function Recent(times: seq<Instant>, cut: Instant): (r: seq<Instant>)
    ensures |r| <= |times|
  {
    if times == [] then []
    else
      var before, t := Recent(times[..|times| - 1], cut), times[|times| - 1];
      if t > cut then before + [t] else before
  }

  // The clock is read for the cut, and again for the entry.
  datatype Call = Call(now: Instant, stamp: Instant)

  predicate Admits(times: seq<Instant>, call: Call) {
    |Recent(times, call.now - WINDOW)| < LIMIT
  }

  function After(times: seq<Instant>, call: Call): seq<Instant> {
    Recent(times, call.now - WINDOW) + if Admits(times, call) then [call.stamp] else []
  }

  /** What the server keeps for a host after these calls. */
  function Kept(calls: seq<Call>): seq<Instant> {
    if calls == [] then [] else After(Kept(calls[..|calls| - 1]), calls[|calls| - 1])
  }

  /** The entries of all the calls that were admitted. */
  function Admitted(calls: seq<Call>): seq<Instant> {
    if calls == [] then []
    else
      var before, call := calls[..|calls| - 1], calls[|calls| - 1];
      Admitted(before) + if Admits(Kept(before), call) then [call.stamp] else []
  }

  /** The calls are made one at a time under a lock, by a clock that does not go back. */
  ghost predicate Clocked(calls: seq<Call>) {
    && (forall i :: 0 <= i < |calls| ==> calls[i].now <= calls[i].stamp)
    && (forall i :: 0 < i < |calls| ==> calls[i - 1].stamp <= calls[i].now)
  }

  lemma {:induction false} RecentConcat(a: seq<Instant>, b: seq<Instant>, cut: Instant)
    ensures Recent(a + b, cut) == Recent(a, cut) + Recent(b, cut)
  {
    if b == [] {
      assert a + b == a;
    } else {
      RecentConcat(a, b[..|b| - 1], cut);
      assert (a + b)[..|a + b| - 1] == a + b[..|b| - 1];
    }
  }

  lemma {:induction false} RecentTwice(times: seq<Instant>, first: Instant, second: Instant)
    requires first <= second
    ensures Recent(Recent(times, first), second) == Recent(times, second)
  {
    if times != [] {
      var before, t := times[..|times| - 1], times[|times| - 1];
      RecentTwice(before, first, second);
      if t > first {
        assert (Recent(before, first) + [t])[..|Recent(before, first)|] == Recent(before, first);
      }
    }
  }

  /** Pruning loses nothing: the kept list decides every later call as the whole history would. */
  lemma {:induction false} PruningIsHarmless(calls: seq<Call>, cut: Instant)
    requires Clocked(calls) && (calls != [] ==> calls[|calls| - 1].now - WINDOW <= cut)
    ensures Recent(Kept(calls), cut) == Recent(Admitted(calls), cut)
  {
    hide Admits;
    if calls != [] {
      var before, call := calls[..|calls| - 1], calls[|calls| - 1];
      PruningIsHarmless(before, cut);
      var entry := if Admits(Kept(before), call) then [call.stamp] else [];
      RecentConcat(Recent(Kept(before), call.now - WINDOW), entry, cut);
      RecentConcat(Admitted(before), entry, cut);
      RecentTwice(Kept(before), call.now - WINDOW, cut);
    }
  }

  lemma {:induction false} AdmittedInOrder(calls: seq<Call>)
    requires Clocked(calls)
    ensures forall i, j :: 0 <= i < j < |Admitted(calls)| ==> Admitted(calls)[i] <= Admitted(calls)[j]
    ensures forall i :: 0 <= i < |Admitted(calls)| ==> Admitted(calls)[i] <= calls[|calls| - 1].stamp
  {
    hide Admits;
    if calls != [] {
      AdmittedInOrder(calls[..|calls| - 1]);
    }
  }

  lemma {:induction false} LastAreRecent(times: seq<Instant>, i: nat, cut: Instant)
    requires i <= |times| && forall k :: i <= k < |times| ==> times[k] > cut
    ensures |times| - i <= |Recent(times, cut)|
  {
    if i < |times| {
      LastAreRecent(times[..|times| - 1], i, cut);
    }
  }

  /** Which of the entries lie after the cut. */
  function Within(times: seq<Instant>, cut: Instant): set<int> { set i | 0 <= i < |times| && cut < times[i] }

  lemma {:induction false} RecentCounts(times: seq<Instant>, cut: Instant)
    ensures |Recent(times, cut)| == |Within(times, cut)|
  {
    if times == [] {
      assert Within(times, cut) == {};
    } else {
      var before, n := times[..|times| - 1], |times| - 1;
      RecentCounts(before, cut);
      assert Within(times, cut) == Within(before, cut) + if cut < times[n] then {n} else {};
    }
  }

  /** No more than twenty uploads of a host are admitted in a second: of any twenty-one in a row the last comes at least a
      second after the first. */
  lemma {:induction false} SpacedOut(calls: seq<Call>, i: nat)
    requires Clocked(calls) && i + LIMIT < |Admitted(calls)|
    ensures Admitted(calls)[i] + WINDOW <= Admitted(calls)[i + LIMIT]
  {
    hide Kept, Recent;
    var before, call := calls[..|calls| - 1], calls[|calls| - 1];
    var times := Admitted(before);
    if i + LIMIT < |times| {
      SpacedOut(before, i);
    } else if times[i] > call.now - WINDOW {
      AdmittedInOrder(before);
      PruningIsHarmless(before, call.now - WINDOW);
      LastAreRecent(times, i, call.now - WINDOW);
      assert false;
    }
  }

  /** And nothing else is turned away: a call is refused exactly when twenty admissions lie within the last second. */
  lemma RefusedExactly(calls: seq<Call>, call: Call)
    requires Clocked(calls + [call])
    ensures Admits(Kept(calls), call) <==> |Within(Admitted(calls), call.now - 1_000_000_000)| < 20
  {
    hide Within, Recent, Admitted, Kept;
    RecentCounts(Admitted(calls), call.now - WINDOW);
    var longer := calls + [call];
    assert forall i :: 0 <= i < |calls| ==> longer[i] == calls[i];
    assert longer[|calls|] == call;
    PruningIsHarmless(calls, call.now - WINDOW);
  }
}
