/** How a run ends: the error that the playbook returns, and the report. */
module Outcome {
  import opened Prelude
  import opened Graphs
  import opened Scheduler
  import opened SchedulerInvariant
  import opened SchedulerTheorems

  /** The first error that stopped the run: its context ended, it stalled, or a task failed fatally. */
  datatype RunError = ContextDone | Stalled | TaskError(message: string)

  /** The text that marks a stalled run; an error with this text is taken for one. */
  const STALLED := "playbook execution stalled"
  const NOT_TERMINAL := "Playbook finished with non-terminal tasks"
  const SOME_FAILED := "Playbook finished with one or more failed tasks"

  datatype FinalError = StoppedBy(cause: RunError) | FatalError(cause: RunError) | UnexpectedPending | FailedTasks

  /** A task that may stay Pending: one of its state producers did not succeed. */
  predicate WaitsForState(stateLeft: map<TaskId, int>, t: TaskId) {
    t in stateLeft && stateLeft[t] > 0
  }

  ghost predicate SomeUnexpectedPending(status: map<TaskId, Status>, stateLeft: map<TaskId, int>) {
    exists t :: t in status && status[t].Pending? && !WaitsForState(stateLeft, t)
  }

  ghost predicate SomeFailed(status: map<TaskId, Status>) {
    exists t :: t in status && status[t].Failed?
  }

  ghost predicate AllSucceeded(status: map<TaskId, Status>) {
    forall t :: t in status ==> status[t].Succeeded()
  }

  // ---- The report ----

  datatype Overall = ReportCompleted | ReportFailed

  datatype TaskResult = TaskResult(status: Status, error: string)

  datatype Report = Report(overall: Overall, error: string, total: nat, completed: nat, failed: nat, skipped: nat,
                           results: map<TaskId, TaskResult>)

  function With(status: map<TaskId, Status>, s: Status): set<TaskId> {
    set t | t in status && status[t] == s
  }

  /** Tasks reported as failed: those that failed and those that never finished. */
  function CountedAsFailed(status: map<TaskId, Status>): set<TaskId> {
    set t | t in status && !status[t].Succeeded()
  }

  function NonTerminal(status: map<TaskId, Status>): set<TaskId> {
    set t | t in status && !status[t].Terminal()
  }

  function ErrorText(status: map<TaskId, Status>, errors: map<TaskId, string>, t: TaskId): string
    requires t in status
  {
    var recorded := if t in errors then errors[t] else "";
    match status[t]
    case Pending => "Task remained in Pending state"
    case Running => "Task remained in Running state"
    case Failed => if recorded == "" then "Task failed (unknown error)" else recorded
    case Completed => recorded
    case Skipped => recorded
  }

  /** What a report of the given task states says. */
  ghost predicate Reports(r: Report, status: map<TaskId, Status>, errors: map<TaskId, string>, err: Option<string>) {
    && r.total == |status|
    && r.completed == |With(status, Completed)| && r.skipped == |With(status, Skipped)|
    && r.failed == |CountedAsFailed(status)|
    && r.results.Keys == status.Keys
    && (forall t :: t in status ==> r.results[t] == TaskResult(status[t], ErrorText(status, errors, t)))
    && (r.overall == ReportCompleted <==> err == None && AllSucceeded(status))
    && r.error ==
      match err
      case Some(e) => e
      case None =>
        if NonTerminal(status) != {} then NOT_TERMINAL
        else if CountedAsFailed(status) != {} then SOME_FAILED
        else ""
  }

  /** Every task is counted once. */
  lemma Partition(status: map<TaskId, Status>)
    ensures |With(status, Completed)| + |With(status, Skipped)| + |CountedAsFailed(status)| == |status|
  {
    var done, skipped, failed := With(status, Completed), With(status, Skipped), CountedAsFailed(status);
    assert done !! skipped && (done + skipped) !! failed;
    assert status.Keys == done + skipped + failed;
    assert |status| == |status.Keys|;
  }

  /** The counts of a report add up. */
  lemma CountsAddUp(r: Report, status: map<TaskId, Status>, errors: map<TaskId, string>, err: Option<string>)
    requires Reports(r, status, errors, err)
    ensures r.completed + r.failed + r.skipped == r.total
    ensures r.overall == ReportCompleted <==> err == None && r.failed == 0
    ensures r.overall == ReportCompleted ==> r.error == ""
  {
    Partition(status);
    NothingLeft(status);
  }

  ghost predicate CountsSoFar(r: Report, status: map<TaskId, Status>, todo: set<TaskId>) {
    && r.completed == |With(status, Completed) - todo| && r.skipped == |With(status, Skipped) - todo|
    && r.failed == |CountedAsFailed(status) - todo|
  }

  ghost predicate ResultsSoFar(r: Report, status: map<TaskId, Status>, errors: map<TaskId, string>, todo: set<TaskId>) {
    && r.results.Keys == status.Keys - todo
    && forall t :: t in r.results ==> r.results[t] == TaskResult(status[t], ErrorText(status, errors, t))
  }

  ghost predicate VerdictSoFar(r: Report, status: map<TaskId, Status>, err: Option<string>, todo: set<TaskId>) {
    && r.overall == (if err.Some? || NonTerminal(status) - todo != {} then ReportFailed else ReportCompleted)
    && r.error ==
      if err.Some? then err.value
      else if NonTerminal(status) - todo != {} then NOT_TERMINAL else ""
  }

  /** The report when the tasks in todo have not been looked at yet. */
  ghost predicate ReportsSoFar(r: Report, status: map<TaskId, Status>, errors: map<TaskId, string>,
                               err: Option<string>, todo: set<TaskId>) {
    CountsSoFar(r, status, todo) && ResultsSoFar(r, status, errors, todo) && VerdictSoFar(r, status, err, todo)
  }

  lemma StartReport(r: Report, status: map<TaskId, Status>, errors: map<TaskId, string>, err: Option<string>)
    requires r == match err
                  case None => Report(ReportCompleted, "", 0, 0, 0, 0, map[])
                  case Some(text) => Report(ReportFailed, text, 0, 0, 0, 0, map[])
    ensures ReportsSoFar(r, status, errors, err, status.Keys)
  {
  }

  function WithLine(before: Report, id: TaskId, status: Status, recorded: string): Report {
    before.(
      completed := before.completed + if status.Completed? then 1 else 0,
      skipped := before.skipped + if status.Skipped? then 1 else 0,
      failed := before.failed + if status.Succeeded() then 0 else 1,
      overall := if status.Terminal() then before.overall else ReportFailed,
      error := if status.Terminal() || before.overall == ReportFailed then before.error else NOT_TERMINAL,
      results := before.results[id := TaskResult(status, ErrorText(map[id := status], map[id := recorded], id))])
  }

  /** One task's line in the report; recorded is its error text, if it has one. */
  method AddToReport(before: Report, id: TaskId, status: Status, recorded: string) returns (r: Report)
    ensures r == WithLine(before, id, status, recorded)
  {
    r := before;
    var text := recorded;
    match status {
      case Failed =>
        r := r.(failed := r.failed + 1);
        if text == "" { text := "Task failed (unknown error)"; }
      case Completed => r := r.(completed := r.completed + 1);
      case Skipped => r := r.(skipped := r.skipped + 1);
      case Pending =>
        r := r.(failed := r.failed + 1);
        if r.overall == ReportCompleted { r := r.(overall := ReportFailed, error := NOT_TERMINAL); }
        text := "Task remained in Pending state";
      case Running =>
        r := r.(failed := r.failed + 1);
        if r.overall == ReportCompleted { r := r.(overall := ReportFailed, error := NOT_TERMINAL); }
        text := "Task remained in Running state";
    }
    r := r.(results := r.results[id := TaskResult(status, text)]);
  }

  /** Looking at one more task. */
  lemma ReportStep(r: Report, r': Report, status: map<TaskId, Status>, errors: map<TaskId, string>,
                   err: Option<string>, todo: set<TaskId>, id: TaskId)
    requires ReportsSoFar(r, status, errors, err, todo) && todo <= status.Keys && id in todo
    requires r' == WithLine(r, id, status[id], if id in errors then errors[id] else "")
    ensures ReportsSoFar(r', status, errors, err, todo - {id})
  {
    CountsStep(r, r', status, todo, id);
    ResultsStep(r, r', status, errors, todo, id);
    VerdictStep(r, r', status, err, todo, id);
  }

  lemma ResultsStep(r: Report, r': Report, status: map<TaskId, Status>, errors: map<TaskId, string>, todo: set<TaskId>,
                    id: TaskId)
    requires ResultsSoFar(r, status, errors, todo) && todo <= status.Keys && id in todo
    requires r' == WithLine(r, id, status[id], if id in errors then errors[id] else "")
    ensures ResultsSoFar(r', status, errors, todo - {id})
  {
  }

  lemma CountsStep(r: Report, r': Report, status: map<TaskId, Status>, todo: set<TaskId>, id: TaskId)
    requires CountsSoFar(r, status, todo) && todo <= status.Keys && id in todo
    requires r'.completed == r.completed + (if status[id].Completed? then 1 else 0)
    requires r'.skipped == r.skipped + (if status[id].Skipped? then 1 else 0)
    requires r'.failed == r.failed + (if status[id].Succeeded() then 0 else 1)
    ensures CountsSoFar(r', status, todo - {id})
  {
    MoveOne(With(status, Completed), todo, id);
    MoveOne(With(status, Skipped), todo, id);
    MoveOne(CountedAsFailed(status), todo, id);
  }

  lemma VerdictStep(r: Report, r': Report, status: map<TaskId, Status>, err: Option<string>, todo: set<TaskId>,
                    id: TaskId)
    requires VerdictSoFar(r, status, err, todo) && todo <= status.Keys && id in todo
    requires r'.overall == if status[id].Terminal() then r.overall else ReportFailed
    requires r'.error == if status[id].Terminal() || r.overall == ReportFailed then r.error else NOT_TERMINAL
    ensures VerdictSoFar(r', status, err, todo - {id})
  {
  }

  lemma MoveOne(s: set<TaskId>, todo: set<TaskId>, id: TaskId)
    requires id in todo
    ensures |s - (todo - {id})| == |s - todo| + if id in s then 1 else 0
  {
    assert s - (todo - {id}) == s - todo + if id in s then {id} else {};
  }

  lemma NothingLeft(status: map<TaskId, Status>)
    ensures With(status, Completed) - {} == With(status, Completed)
    ensures With(status, Skipped) - {} == With(status, Skipped)
    ensures CountedAsFailed(status) - {} == CountedAsFailed(status) && NonTerminal(status) - {} == NonTerminal(status)
    ensures |CountedAsFailed(status)| > 0 <==> CountedAsFailed(status) != {}
    ensures CountedAsFailed(status) == {} <==> AllSucceeded(status)
    ensures NonTerminal(status) <= CountedAsFailed(status)
  {
    if CountedAsFailed(status) == {} { assert forall t :: t in status ==> t !in CountedAsFailed(status); }
  }

  lemma ReportDone(r: Report, r': Report, status: map<TaskId, Status>, errors: map<TaskId, string>, err: Option<string>)
    requires ReportsSoFar(r, status, errors, err, {})
    requires r' == r.(
      total := |status|,
      overall := if r.failed > 0 then ReportFailed else r.overall,
      error := if r.failed > 0 && r.overall == ReportCompleted && r.error == "" then SOME_FAILED else r.error)
    ensures Reports(r', status, errors, err)
  {
    NothingLeft(status);
    CountsDone(r, status);
    VerdictDone(r, status, err);
  }

  lemma CountsDone(r: Report, status: map<TaskId, Status>)
    requires CountsSoFar(r, status, {})
    ensures r.completed == |With(status, Completed)| && r.skipped == |With(status, Skipped)|
    ensures r.failed == |CountedAsFailed(status)|
  {
    NothingLeft(status);
  }

  lemma VerdictDone(r: Report, status: map<TaskId, Status>, err: Option<string>)
    requires VerdictSoFar(r, status, err, {})
    ensures r.overall == (if err.Some? || NonTerminal(status) != {} then ReportFailed else ReportCompleted)
    ensures r.error == if err.Some? then err.value else if NonTerminal(status) != {} then NOT_TERMINAL else ""
  {
    NothingLeft(status);
  }

  /**
   What the report says of one task: its status, and the error recorded for it; a failed task without one
   and a task that never finished have texts of their own.
   */
  lemma LinesMean(r: Report, status: map<TaskId, Status>, errors: map<TaskId, string>, err: Option<string>, t: TaskId)
    requires Reports(r, status, errors, err) && t in status
    ensures t in r.results && r.results[t].status == status[t]
    ensures status[t].Terminal() && t in errors && errors[t] != "" ==> r.results[t].error == errors[t]
    ensures status[t] == Failed && (t in errors ==> errors[t] == "") ==>
      r.results[t].error == "Task failed (unknown error)"
    ensures status[t].Succeeded() && (t in errors ==> errors[t] == "") ==> r.results[t].error == ""
    ensures status[t] == Pending ==> r.results[t].error == "Task remained in Pending state"
    ensures status[t] == Running ==> r.results[t].error == "Task remained in Running state"
  {
  }

  /** The verdict of the whole report: failed exactly if there is an error or some task did not succeed, and why. */
  lemma VerdictMeans(r: Report, status: map<TaskId, Status>, errors: map<TaskId, string>, err: Option<string>)
    requires Reports(r, status, errors, err)
    ensures r.overall == ReportCompleted <==>
      err == None && forall t :: t in status ==> status[t] in {Completed, Skipped}
    ensures err.Some? ==> r.error == err.value
    ensures err == None && (exists t :: t in status && status[t] in {Pending, Running}) ==>
      r.error == "Playbook finished with non-terminal tasks"
    ensures err == None && (forall t :: t in status ==> status[t] !in {Pending, Running}) ==>
      r.error == if forall t :: t in status ==> status[t] != Failed then ""
        else "Playbook finished with one or more failed tasks"
  {
    if t :| t in status && status[t] in {Pending, Running} { assert t in NonTerminal(status); }
    if t :| t in status && status[t] == Failed { assert t in CountedAsFailed(status); }
  }

  // ---- At quiescence ----

  ghost predicate OutcomeIs(e: Option<FinalError>, fatal: Option<RunError>, status: map<TaskId, Status>,
                            stateLeft: map<TaskId, int>) {
    match fatal
    case Some(TaskError(m)) => e == Some(if m == STALLED then StoppedBy(TaskError(m)) else FatalError(TaskError(m)))
    case Some(cause) => e == Some(StoppedBy(cause))
    case None =>
      e == if SomeUnexpectedPending(status, stateLeft) then Some(UnexpectedPending)
           else if SomeFailed(status) then Some(FailedTasks)
           else None
  }

  /**
   A run that was stopped ends with the first cause: the context's own error, or a stall, is returned as it
   is, also if it came as a task's error with the text of a stall; any other task's error is wrapped as fatal.
   */
  lemma StoppedMeans(e: Option<FinalError>, cause: RunError, status: map<TaskId, Status>, stateLeft: map<TaskId, int>)
    requires OutcomeIs(e, Some(cause), status, stateLeft)
    ensures e.Some? && (e.value == StoppedBy(cause) || e.value == FatalError(cause))
    ensures e == Some(FatalError(cause)) <==> cause.TaskError? && cause.message != "playbook execution stalled"
  {
  }

  /** Without a cause the states decide: unexpected Pending tasks first, then failed ones. */
  lemma FinishedMeans(e: Option<FinalError>, status: map<TaskId, Status>, stateLeft: map<TaskId, int>)
    requires OutcomeIs(e, None, status, stateLeft)
    ensures e == Some(UnexpectedPending) <==>
      exists t :: t in status && status[t] == Pending && !(t in stateLeft && stateLeft[t] > 0)
    ensures e == Some(FailedTasks) <==> e != Some(UnexpectedPending) && exists t :: t in status && status[t] == Failed
    ensures e in {None, Some(UnexpectedPending), Some(FailedTasks)}
  {
    forall t | t in status ensures WaitsForState(stateLeft, t) <==> t in stateLeft && stateLeft[t] > 0 {}
  }

  lemma NoErrorMeansNoFailure(e: Option<FinalError>, status: map<TaskId, Status>, stateLeft: map<TaskId, int>)
    requires OutcomeIs(e, None, status, stateLeft)
    ensures e == None ==> forall t :: t in status ==> status[t] != Failed
    ensures AllSucceeded(status) ==> e == None
  {
  }

  lemma KeysAreNodes(c: Config, s: Sys)
    requires Reachable(c, s)
    ensures s.status.Keys == c.g.nodes
  {
    ReachableInv(c, s);
  }

  /** At a quiescent state of an acyclic graph, with no fatal error: success is reported iff every task succeeded. */
  lemma SuccessMeansAllDone(c: Config, s: Sys, e: Option<FinalError>)
    requires Reachable(c, s) && Quiescent(s) && c.g.Acyclic()
    requires OutcomeIs(e, None, s.status, s.stateLeft)
    ensures e == None <==> AllSucceeded(s.status)
    ensures s.status.Keys == c.g.nodes
  {
    KeysAreNodes(c, s);
    NoErrorMeansNoFailure(e, s.status, s.stateLeft);
    if e == None { NoFailureMeansAllDone(c, s); }
  }

  /** Every state producer of n has succeeded. */
  ghost predicate StateMet(c: Config, s: Sys, n: TaskId) {
    forall p :: p in c.g.Deps(State, n) ==> p in s.status && s.status[p].Succeeded()
  }

  /**
   The error names unexpected Pending tasks exactly if some Pending task has all its state producers
   done; it then waits for a stream producer that is itself blocked, so some task has failed.
   */
  lemma UnexpectedPendingMeans(c: Config, s: Sys, e: Option<FinalError>)
    requires Reachable(c, s) && Quiescent(s) && c.g.Acyclic() && OutcomeIs(e, None, s.status, s.stateLeft)
    ensures e == Some(UnexpectedPending) <==>
      exists n :: n in s.status && s.status[n] == Pending && StateMet(c, s, n)
    ensures e == Some(UnexpectedPending) ==> SomeFailed(s.status)
  {
    forall n | n in s.status ensures WaitsForState(s.stateLeft, n) <==> !StateMet(c, s, n) { StateWait(c, s, n); }
    if e == Some(UnexpectedPending) {
      var n :| n in s.status && s.status[n].Pending? && !WaitsForState(s.stateLeft, n);
      var chain := PendingIsBlocked(c, s, n);
      assert s.status[chain[0]].Failed?;
    }
  }

  lemma StateWait(c: Config, s: Sys, n: TaskId)
    requires Reachable(c, s) && Quiescent(s) && n in s.status
    ensures WaitsForState(s.stateLeft, n) <==> !StateMet(c, s, n)
  {
    ReachableInv(c, s);
    CountersMeanUnmet(c, s, State, n);
    var unmet := Waiting(c, s, State, n);
    assert s.stateLeft == s.Left(State);
    assert |unmet| > 0 <==> unmet != {};
    if p :| p in unmet { assert !Fired(s, State, p) && p in s.status; }
    if p :| p in c.g.Deps(State, n) && !(p in s.status && s.status[p].Succeeded()) { assert p in unmet; }
  }

  /** At quiescence no Pending task is ready, which is what the loop's stable exit looks for. */
  lemma NothingRunnable(c: Config, s: Sys, n: TaskId)
    requires Reachable(c, s) && Quiescent(s) && n in s.status && s.status[n] == Pending
    ensures !s.BothZero(n)
  {
    ReachableInv(c, s);
    assert n !in s.dispatched && n in c.g.nodes;
    NoLostWakeUp(c, s, n);
  }
}
