/** Per-task run evidence (task_runtime.go): the row update, and what a row means in terms of the
    events it has accepted. */
module TaskRuntime {
  import opened Wrappers
  import opened Wire

  type Task = (string, string)  // host, conversation

  // exactAt is 0 when the column is empty.
  datatype TaskRow = TaskRow(state: string, turn: string, evidenceAt: Instant, estimate: int, exactAt: Instant)
  type TaskTable = map<Task, TaskRow>

  const BLANK := TaskRow("unknown", "", 0, 0, 0)

  function TaskOf(e: UsageEvent): Task { (e.hostId, e.conversationId) }

  function Lookup(table: TaskTable, task: Task): TaskRow {
    if task !in table then BLANK
    else if table[task].state == "" then table[task].(state := "unknown")
    else table[task]
  }

  /** The row after `e`, or None when the event leaves the table as it is. */
  function NextRow(row: TaskRow, e: UsageEvent): Option<TaskRow> {
    if e.at < row.evidenceAt then None
    else
      var newTurn := e.turnId != "" && e.turnId != row.turn;
      var base := if newTurn then row.(turn := e.turnId, estimate := 0, exactAt := 0) else row;
      match e.kind
      case Runtime =>
        Some(base.(state := e.runState, evidenceAt := e.at,
                   estimate := if e.runState == "idle" then 0 else base.estimate))
      case Activity =>
        var idle := e.runState == "idle";
        Some(base.(state := if idle then "idle" else "running", evidenceAt := e.at,
                   estimate := if idle then 0 else base.estimate))
      case LiveEstimate =>
        if !newTurn && row.exactAt != 0 && e.at <= row.exactAt then None
        else Some(base.(state := "running", evidenceAt := e.at, estimate := base.estimate + e.liveEstimate))
      case ExactUsage =>
        Some(base.(state := if newTurn then "unknown" else base.state, evidenceAt := e.at, estimate := 0, exactAt := e.at))
      case _ => None
  }

  function ApplyRuntime(table: TaskTable, e: UsageEvent): TaskTable {
    match NextRow(Lookup(table, TaskOf(e)), e)
    case None => table
    case Some(row) => table[TaskOf(e) := row]
  }

  function RunAll(events: seq<UsageEvent>): TaskTable {
    if events == [] then map[] else ApplyRuntime(RunAll(events[..|events| - 1]), events[|events| - 1])
  }

  /** One event never moves a task's evidence backwards, never touches another task, and an event older
      than the evidence changes nothing at all. */
  lemma EvidenceOnlyAdvances(table: TaskTable, e: UsageEvent, task: Task)
    requires task in table
    ensures task in ApplyRuntime(table, e) && table[task].evidenceAt <= ApplyRuntime(table, e)[task].evidenceAt
    ensures task != TaskOf(e) ==> ApplyRuntime(table, e)[task] == table[task]
    ensures task == TaskOf(e) && e.at < table[task].evidenceAt ==> ApplyRuntime(table, e) == table
  {
  }

  /* ---- A row as a function of the events it accepted, without looking at rows ---- */

  function LastTurn(log: seq<UsageEvent>): string {
    if log == [] then ""
    else if log[|log| - 1].turnId != "" then log[|log| - 1].turnId
    else LastTurn(log[..|log| - 1])
  }

  predicate StartsTurn(log: seq<UsageEvent>, e: UsageEvent) {
    e.turnId != "" && e.turnId != LastTurn(log)
  }

  function LastEvidence(log: seq<UsageEvent>): Instant {
    if log == [] then 0 else log[|log| - 1].at
  }

  /** The run state the events leave behind: the last report or activity decides it, a live event means the turn is
      running, and an exact reading that opens a turn leaves it unknown until more is heard of that turn. */
  function StateOf(log: seq<UsageEvent>): string {
    if log == [] then "unknown"
    else
      var e, before := log[|log| - 1], log[..|log| - 1];
      match e.kind
      case Runtime => e.runState
      case Activity => if e.runState == "idle" then "idle" else "running"
      case LiveEstimate => "running"
      case ExactUsage => if StartsTurn(before, e) then "unknown" else StateOf(before)
      case _ => StateOf(before)
  }

  /** When the current turn was last settled by an exact reading; 0 when it has not been. */
  function SettledAt(log: seq<UsageEvent>): Instant {
    if log == [] then 0
    else
      var e, before := log[|log| - 1], log[..|log| - 1];
      if e.kind.ExactUsage? then e.at
      else if StartsTurn(before, e) then 0
      else SettledAt(before)
  }

  predicate SaysIdle(e: UsageEvent) {
    (e.kind.Runtime? || e.kind.Activity?) && e.runState == "idle"
  }

  /** Where the live total starts counting: after the last exact or idle event, or at the event that
      opened the current turn, whichever is later. */
  function CountFrom(log: seq<UsageEvent>): (k: nat)
    ensures k <= |log|
  {
    if log == [] then 0
    else
      var e, before := log[|log| - 1], log[..|log| - 1];
      if e.kind.ExactUsage? || SaysIdle(e) then |log|
      else if StartsTurn(before, e) then |log| - 1
      else CountFrom(before)
  }

  function SumLive(log: seq<UsageEvent>): int {
    if log == [] then 0
    else SumLive(log[..|log| - 1]) + if log[|log| - 1].kind.LiveEstimate? then log[|log| - 1].liveEstimate else 0
  }

  /** Which events count as evidence for a task that has already accepted `log`. */
  predicate Accepts(log: seq<UsageEvent>, e: UsageEvent) {
    && LastEvidence(log) <= e.at
    && !e.kind.Baseline? && !e.kind.Unrecognised?
    && (e.kind.LiveEstimate? ==> StartsTurn(log, e) || SettledAt(log) == 0 || SettledAt(log) < e.at)
  }

  function Accepted(events: seq<UsageEvent>, task: Task): seq<UsageEvent> {
    if events == [] then []
    else
      var before := Accepted(events[..|events| - 1], task);
      var e := events[|events| - 1];
      if TaskOf(e) == task && Accepts(before, e) then before + [e] else before
  }

  ghost predicate RowReflects(row: TaskRow, log: seq<UsageEvent>) {
    && row.state == StateOf(log)
    && row.turn == LastTurn(log)
    && row.evidenceAt == LastEvidence(log)
    && row.exactAt == SettledAt(log)
    && row.estimate == SumLive(log[CountFrom(log)..])
  }

  lemma NextRowReflects(row: TaskRow, log: seq<UsageEvent>, e: UsageEvent)
    requires RowReflects(row, log)
    ensures NextRow(row, e).Some? <==> Accepts(log, e)
    ensures NextRow(row, e).Some? ==> RowReflects(NextRow(row, e).value, log + [e])
  {
    var longer := log + [e];
    assert longer[..|longer| - 1] == log;
    var k, from := CountFrom(log), CountFrom(longer);
    if NextRow(row, e).Some? {
      if from <= |log| {
        assert longer[from..][..|longer| - from - 1] == log[from..];
      }
      assert longer[from..] == [] || longer[from..][|longer| - from - 1] == e;
    }
  }

  lemma FirstRow()
    ensures RowReflects(BLANK, [])
  {
  }

  /** A valid event names the state it leaves, unless the row already had one. */
  lemma StateIsNamed(row: TaskRow, e: UsageEvent)
    requires row.state != "" && ValidUsageEvent(e)
    ensures NextRow(row, e).Some? ==> NextRow(row, e).value.state != ""
  {
  }

  /** Over every run: a task's row is exactly what its accepted events say — its run state is the last one they imply,
      and its estimate is the sum of the live events since the last new turn, exact reading or idle report. */
  lemma {:induction false} RuntimeHistory(events: seq<UsageEvent>, task: Task)
    requires forall i :: 0 <= i < |events| ==> ValidUsageEvent(events[i])
    ensures RowReflects(Lookup(RunAll(events), task), Accepted(events, task))
    ensures task in RunAll(events) <==> Accepted(events, task) != []
    ensures task in RunAll(events) ==> RunAll(events)[task].state != ""
  {
    hide NextRow, RowReflects, Accepts, ValidUsageEvent;
    if events == [] {
      FirstRow();
    } else {
      var before, e := events[..|events| - 1], events[|events| - 1];
      RuntimeHistory(before, task);
      if TaskOf(e) == task {
        StateIsNamed(Lookup(RunAll(before), task), e);
        NextRowReflects(Lookup(RunAll(before), task), Accepted(before, task), e);
      }
    }
  }

  ghost predicate SoundRow(row: TaskRow) {
    && 0 <= row.estimate
    && (row.state == "idle" ==> row.estimate == 0)
    && (0 < row.estimate && row.exactAt != 0 ==> row.exactAt < row.evidenceAt)
  }

  lemma SoundStep(row: TaskRow, e: UsageEvent)
    requires SoundRow(row) && row.state != "" && ValidUsageEvent(e)
    ensures NextRow(row, e).Some? ==> SoundRow(NextRow(row, e).value)
  {
  }

  /** Over every run: idle means nothing is outstanding, and an estimate left over after an exact reading
      rests on strictly later evidence. */
  lemma {:induction false} RuntimeSound(events: seq<UsageEvent>, task: Task)
    requires forall i :: 0 <= i < |events| ==> ValidUsageEvent(events[i])
    ensures SoundRow(Lookup(RunAll(events), task))
  {
    hide NextRow, RowReflects, Accepted, ValidUsageEvent;
    if events != [] {
      var before, e := events[..|events| - 1], events[|events| - 1];
      RuntimeSound(before, task);
      RuntimeHistory(before, task);
      RuntimeHistory(events, task);
      SoundStep(Lookup(RunAll(before), task), e);
    }
  }
}
