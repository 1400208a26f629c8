/**
 The engine object: the code that the scheduler and the workers execute. Each method that changes
 the engine is shown to take exactly the steps of the state machine, in its order; what other
 actors do between those steps is what the machine's runs interleave.
 */
module EngineCode {
  import opened Prelude
  import opened Graphs
  import opened Scheduler
  import opened Outcome

  /** run leads from s to s'. */
  ghost predicate Leads(c: Config, s: Sys, run: seq<Step>, s': Sys) {
    IsRun(c, s, run) && After(c, s, run) == s'
  }

  lemma LeadsOn(c: Config, s: Sys, run: seq<Step>, s': Sys, step: Step)
    requires Leads(c, s, run, s') && Enabled(c, s', step)
    ensures Leads(c, s, run + [step], Apply(c, s', step))
  {
    RunAppend(c, s, run, step);
  }

  lemma NoneLeft(s: set<TaskId>)
    ensures |s| == 0 <==> forall t :: t !in s
  {
    if forall t :: t !in s { assert s == {}; }
  }

  lemma OneStep(c: Config, s: Sys, step: Step)
    requires Enabled(c, s, step)
    ensures Leads(c, s, [step], Apply(c, s, step))
  {
    LeadsOn(c, s, [], s, step);
    assert [] + [step] == [step];
  }

  /** A task's error: its text, and whether it says only that the context had ended, or that the task was skipped. */
  datatype TaskErr = TaskErr(text: string, ofContext: bool, ofSkip: bool)

  predicate IsFatal(taskErr: Option<TaskErr>) {
    taskErr.Some? && !taskErr.value.ofContext && !taskErr.value.ofSkip
  }

  class Engine {
    const c: Config
    var taskStatuses: map<TaskId, Status>
    var taskErrors: map<TaskId, string>
    var streamDepsRemaining: map<TaskId, int>
    var stateDepsRemaining: map<TaskId, int>
    var dispatchedTasks: set<TaskId>
    var readyChan: seq<TaskId>
    var workQueue: seq<TaskId>
    var runCancelled: bool
    var fatalErrChan: Option<string>        // the one-element channel
    var firstFatalError: Option<RunError>   // why the scheduler stops the run, once it does
    ghost var actors: seq<Pc>
    ghost var signals: set<Signal>
    ghost var sends: seq<TaskId>
    ghost var order: seq<TaskId>

    constructor (c: Config, initialReady: seq<TaskId>)
      requires c.g.WellFormed() && NoDup(initialReady) && Elements(initialReady) == InitiallyReady(c.g)
      ensures this.c == c && Init(c, View()) && taskErrors == map[] && firstFatalError == None
    {
      this.c := c;
      taskStatuses, taskErrors := map n | n in c.g.nodes :: Pending, map[];
      streamDepsRemaining := map n | n in c.g.nodes :: |c.g.Deps(Stream, n)|;
      stateDepsRemaining := map n | n in c.g.nodes :: |c.g.Deps(State, n)|;
      dispatchedTasks, workQueue, readyChan := {}, [], initialReady;
      runCancelled, fatalErrChan, firstFatalError := false, None, None;
      actors, signals, sends, order := seq(c.workers + 1, _ => Idle), {}, initialReady, [];
    }

    ghost function View(): Sys
      reads this
    {
      Sys(taskStatuses, streamDepsRemaining, stateDepsRemaining, dispatchedTasks, readyChan, workQueue, actors,
        runCancelled, fatalErrChan.Some?, firstFatalError.Some? && firstFatalError.value.TaskError?, signals, sends,
        order)
    }

    method IsTaskReady(n: TaskId) returns (ready: bool)
      requires n in streamDepsRemaining && n in stateDepsRemaining
      ensures ready <==> View().BothZero(n)
    {
      ready := streamDepsRemaining[n] == 0 && stateDepsRemaining[n] == 0;
    }

    // ---- The atomic operations: each is one step of the machine ----

    method AddMinusOne(a: nat, kind: Kind, task: TaskId, d: TaskId) returns (left: int)
      requires CanDecrement(View(), a, d) && actors[a].kind == kind && actors[a].task == task
      requires task in c.g.Deps(kind, d)
      modifies this`streamDepsRemaining, this`stateDepsRemaining, this`actors, this`signals
      ensures View() == ApplyDecrement(c, old(View()), a, d) && left == View().Left(kind)[d]
      ensures |actors| == |old(actors)|
      ensures actors[a] == Signalling(kind, task, old(actors)[a].todo - {d}, if left == 0 then LoadStream(d) else Next)
      ensures streamDepsRemaining.Keys == old(streamDepsRemaining).Keys
      ensures stateDepsRemaining.Keys == old(stateDepsRemaining).Keys
    {
      ghost var s1 := ApplyDecrement(c, View(), a, d);
      if kind.Stream? {
        left := streamDepsRemaining[d] - 1;
        streamDepsRemaining := streamDepsRemaining[d := left];
      } else {
        left := stateDepsRemaining[d] - 1;
        stateDepsRemaining := stateDepsRemaining[d := left];
      }
      signals, actors := s1.signals, s1.actors;
    }

    /** A dependent that does not wait for the task by an edge of this kind is passed over. */
    ghost method PassOver(a: nat, kind: Kind, task: TaskId, d: TaskId)
      requires CanDecrement(View(), a, d) && actors[a].kind == kind && actors[a].task == task
      requires task !in c.g.Deps(kind, d)
      modifies this`actors
      ensures View() == ApplyDecrement(c, old(View()), a, d)
      ensures |actors| == |old(actors)| && actors[a] == Signalling(kind, task, old(actors)[a].todo - {d}, Next)
    {
      actors := ApplyDecrement(c, View(), a, d).actors;
    }

    method LoadCounter(a: nat, kind: Kind, d: TaskId) returns (zero: bool)
      requires CanLoad(View(), a) && actors[a].phase == (if kind.Stream? then LoadStream(d) else LoadState(d))
      modifies this`actors
      ensures View() == ApplyLoad(c, old(View()), a) && (zero <==> View().Left(kind)[d] == 0)
    {
      ghost var s1 := ApplyLoad(c, View(), a);
      if kind.Stream? { zero := streamDepsRemaining[d] == 0; } else { zero := stateDepsRemaining[d] == 0; }
      actors := s1.actors;
    }

    method SendOnReady(a: nat, d: TaskId)
      requires CanSend(c, View(), a) && actors[a].phase.dep == d
      modifies this`readyChan, this`actors, this`sends
      ensures View() == ApplySend(c, old(View()), a)
    {
      ghost var s1 := ApplySend(c, View(), a);
      readyChan, actors, sends := readyChan + [d], s1.actors, s1.sends;
    }

    /** Takes a ready id; a duplicate is dropped, a Pending task becomes Running. */
    method TakeReady() returns (taskID: TaskId, dispatch: bool)
      requires CanReceive(View())
      modifies this`readyChan, this`dispatchedTasks, this`taskStatuses, this`actors, this`order
      ensures View() == ApplyReceive(c, old(View())) && taskID == old(readyChan)[0]
      ensures dispatch <==>
        taskID !in old(dispatchedTasks) && taskID in old(taskStatuses) && old(taskStatuses)[taskID] == Pending
    {
      ghost var s1 := ApplyReceive(c, View());
      taskID, dispatch := readyChan[0], false;
      readyChan := readyChan[1..];
      if taskID in dispatchedTasks || taskID !in taskStatuses || taskStatuses[taskID] != Pending {
        return;
      }
      dispatchedTasks := dispatchedTasks + {taskID};
      taskStatuses := taskStatuses[taskID := Running];
      actors, order := s1.actors, s1.order;
      dispatch := true;
    }

    /** A task's error is kept, or forgotten if it has none. */
    method SetError(taskID: TaskId, taskErr: Option<string>)
      modifies this`taskErrors
      ensures taskErrors == if taskErr.Some? then old(taskErrors)[taskID := taskErr.value]
        else old(taskErrors) - {taskID}
    {
      if taskErr.Some? {
        taskErrors := taskErrors[taskID := taskErr.value];
      } else {
        taskErrors := taskErrors - {taskID};
      }
    }

    /** A fatal error is offered to the one-element channel; if one is there already this one is dropped. */
    method OfferFatal(message: string)
      modifies this`fatalErrChan
      ensures fatalErrChan == if old(fatalErrChan).Some? then old(fatalErrChan) else Some(message)
    {
      if fatalErrChan.None? { fatalErrChan := Some(message); }
    }

    /**
     Records the outcome of a task and its error, unless it already has one. A failure is fatal unless
     it is to be ignored, or has no error, or only the error of an ended context or of a skip.
     */
    method RecordOutcome(a: nat, taskID: TaskId, outcome: Status, taskErr: Option<TaskErr>)
      returns (first: bool, ghost raises: bool)
      requires CanComplete(c, View(), a, outcome, false) && actors[a].task == taskID
      modifies this`taskStatuses, this`taskErrors, this`actors, this`fatalErrChan
      ensures raises <==>
        && outcome == Failed && taskID !in c.ignoreErrors
        && taskErr.Some? && !taskErr.value.ofContext && !taskErr.value.ofSkip
      ensures CanComplete(c, old(View()), a, outcome, raises)
      ensures View() == ApplyComplete(c, old(View()), a, outcome, raises)
      ensures first <==> old(taskStatuses)[taskID] in {Pending, Running}
      ensures !first ==>
        taskStatuses == old(taskStatuses) && taskErrors == old(taskErrors) && fatalErrChan == old(fatalErrChan)
      ensures first ==> taskStatuses == old(taskStatuses)[taskID := outcome]
      ensures first ==> taskErrors == if taskErr.Some? then old(taskErrors)[taskID := taskErr.value.text]
        else old(taskErrors) - {taskID}
      ensures first ==> fatalErrChan == if raises && old(fatalErrChan).None? then Some(taskErr.value.text)
        else old(fatalErrChan)
    {
      first := taskStatuses[taskID] == Pending || taskStatuses[taskID] == Running;
      raises := outcome == Failed && taskID !in c.ignoreErrors && taskErr.Some?
        && !taskErr.value.ofContext && !taskErr.value.ofSkip;
      ghost var s1 := ApplyComplete(c, View(), a, outcome, raises);
      if first {
        SetError(taskID, if taskErr.Some? then Some(taskErr.value.text) else None);
        taskStatuses := taskStatuses[taskID := outcome];
        if outcome == Failed && taskID !in c.ignoreErrors {
          if taskErr.Some? && !taskErr.value.ofContext && !taskErr.value.ofSkip {
            OfferFatal(taskErr.value.text);
          }
        }
      }
      actors := s1.actors;
    }

    /** The scheduler takes a fatal error: it keeps the first one and cancels the run. */
    method TakeFatalError()
      requires |actors| > 0 && actors[0].Idle? && fatalErrChan.Some?
      requires firstFatalError.None? || firstFatalError.value.TaskError?
      modifies this`fatalErrChan, this`firstFatalError, this`runCancelled
      ensures Enabled(c, old(View()), TakeFatal) && View() == Apply(c, old(View()), TakeFatal)
      ensures fatalErrChan == None && runCancelled
      ensures firstFatalError ==
        if old(firstFatalError).Some? then old(firstFatalError) else Some(TaskError(old(fatalErrChan).value))
    {
      if firstFatalError.None? { firstFatalError := Some(TaskError(fatalErrChan.value)); }
      fatalErrChan := None;
      runCancelled := true;
    }

    /** The scheduler finds the context ended, and leaves its loop. */
    method LeaveOnContext()
      requires |actors| > 0 && actors[0].Idle? && runCancelled
      modifies this`firstFatalError, this`actors
      ensures Enabled(c, old(View()), SchedulerStop) && View() == Apply(c, old(View()), SchedulerStop)
      ensures firstFatalError == if old(firstFatalError).Some? then old(firstFatalError) else Some(ContextDone)
    {
      if firstFatalError.None? { firstFatalError := Some(ContextDone); }
      actors := actors[0 := Exited];
    }

    /**
     A dispatched task is offered to the workers. With room in the work queue it is queued; if the
     context has ended it may instead be completed on their behalf, as failed, whatever its status; pick
     says which case is taken when both are ready. Otherwise the scheduler waits.
     */
    method OfferWork(taskID: TaskId, ctxErr: string, pick: bool) returns (queued: bool, waits: bool)
      requires |actors| > 0 && actors[0] == Enqueueing(taskID)
      modifies this`workQueue, this`taskStatuses, this`taskErrors, this`actors
      ensures var room := |old(workQueue)| < 2 * c.workers;
        && (queued <==> room && (pick || !runCancelled)) && (waits <==> !room && !runCancelled)
      ensures waits ==> View() == old(View()) && taskErrors == old(taskErrors)
      ensures queued ==>
        Enabled(c, old(View()), Enqueue) && View() == Apply(c, old(View()), Enqueue) && taskErrors == old(taskErrors)
      ensures !queued && !waits ==>
        && Enabled(c, old(View()), EnqueueCancelled) && View() == Apply(c, old(View()), EnqueueCancelled)
        && taskErrors == old(taskErrors)[taskID := ctxErr]
    {
      var room := |workQueue| < 2 * c.workers;
      queued := room && (pick || !runCancelled);
      waits := !room && !runCancelled;
      if queued {
        workQueue := workQueue + [taskID];
      } else if !waits {
        taskStatuses := taskStatuses[taskID := Failed];
        SetError(taskID, Some(ctxErr));
      }
      if !waits { actors := actors[0 := Idle]; }
    }

    // ---- The methods built from them ----

    /** One dependent: decrement its counter, and if that was the last one, check it and send it. */
    method SignalOne(a: nat, kind: Kind, task: TaskId, d: TaskId, ghost s0: Sys, ghost run0: seq<Step>)
      returns (blocked: bool, ghost run: seq<Step>)
      requires CanDecrement(View(), a, d) && actors[a].kind == kind && actors[a].task == task
      requires d in streamDepsRemaining && d in stateDepsRemaining
      requires Leads(c, s0, run0, View())
      modifies this`streamDepsRemaining, this`stateDepsRemaining, this`readyChan, this`actors, this`signals, this`sends
      ensures run0 <= run && Leads(c, s0, run, View()) && |actors| == |old(actors)|
      ensures streamDepsRemaining.Keys == old(streamDepsRemaining).Keys
      ensures stateDepsRemaining.Keys == old(stateDepsRemaining).Keys
      ensures blocked ==>
        |readyChan| >= c.readyCap && actors[a] == Signalling(kind, task, old(actors)[a].todo - {d}, Send(d))
      ensures !blocked ==> actors[a] == Signalling(kind, task, old(actors)[a].todo - {d}, Next)
    {
      blocked, run := false, run0 + [Decrement(a, d)];
      LeadsOn(c, s0, run0, View(), Decrement(a, d));
      if task in c.g.Deps(kind, d) {
        var left := AddMinusOne(a, kind, task, d);
        if left == 0 {
          blocked, run := CheckAndSend(a, d, s0, run);
        }
      } else {
        PassOver(a, kind, task, d);
      }
    }

    /** The readiness check, one counter after the other, and the send; blocked if the channel is full. */
    method CheckAndSend(a: nat, d: TaskId, ghost s0: Sys, ghost run0: seq<Step>)
      returns (blocked: bool, ghost run: seq<Step>)
      requires CanLoad(View(), a) && actors[a].phase == LoadStream(d) && d in stateDepsRemaining
      requires Leads(c, s0, run0, View())
      modifies this`readyChan, this`actors, this`sends
      ensures run0 <= run && Leads(c, s0, run, View()) && |actors| == |old(actors)|
      ensures blocked <==> View().BothZero(d) && |old(readyChan)| >= c.readyCap
      ensures readyChan == if View().BothZero(d) && !blocked then old(readyChan) + [d] else old(readyChan)
      ensures actors[a] == old(actors)[a].(phase := if blocked then Send(d) else Next)
    {
      blocked, run := false, run0 + [Load(a)];
      LeadsOn(c, s0, run0, View(), Load(a));
      var zero := LoadCounter(a, Stream, d);
      if zero {
        LeadsOn(c, s0, run, View(), Load(a));
        run := run + [Load(a)];
        zero := LoadCounter(a, State, d);
        if zero {
          if |readyChan| >= c.readyCap {
            return true, run;
          }
          LeadsOn(c, s0, run, View(), SendReady(a));
          run := run + [SendReady(a)];
          SendOnReady(a, d);
        }
      }
    }

    /**
     Signals every dependent of a task that was dispatched (stream) or has succeeded (state), in any
     order. Unless a send blocks on a full channel, the actor has then done all its signalling.
     */
    method SignalDependents(a: nat, kind: Kind, task: TaskId, ghost s0: Sys, ghost run0: seq<Step>)
      returns (blocked: bool, ghost run: seq<Step>)
      requires a < |actors| && actors[a] == Signalling(kind, task, c.g.RequiredBy(task), Next)
      requires c.g.nodes <= streamDepsRemaining.Keys && c.g.nodes <= stateDepsRemaining.Keys
      requires Leads(c, s0, run0, View())
      modifies this`streamDepsRemaining, this`stateDepsRemaining, this`readyChan, this`actors, this`signals, this`sends
      ensures run0 <= run && Leads(c, s0, run, View()) && |actors| == |old(actors)|
      ensures blocked ==> |readyChan| >= c.readyCap && IsSignalling(View(), a) && actors[a].phase.Send?
      ensures !blocked ==> actors[a] == if a == 0 then Enqueueing(task) else Idle
    {
      var todo := c.g.RequiredBy(task);
      run := run0;
      while todo != {}
        invariant todo <= c.g.nodes && |actors| == |old(actors)| && actors[a] == Signalling(kind, task, todo, Next)
        invariant c.g.nodes <= streamDepsRemaining.Keys && c.g.nodes <= stateDepsRemaining.Keys
        invariant run0 <= run && Leads(c, s0, run, View())
        decreases todo
      {
        var d :| d in todo;
        blocked, run := SignalOne(a, kind, task, d, s0, run);
        if blocked { return; }
        todo := todo - {d};
      }
      blocked := false;
      LeadsOn(c, s0, run, View(), FinishSignals(a));
      run := run + [FinishSignals(a)];
      actors := ApplyFinish(View(), a).actors;
    }

    /** The scheduler takes a ready id: duplicates are dropped, a Pending task becomes Running and signals. */
    method DispatchReady() returns (blocked: bool, ghost run: seq<Step>)
      requires |actors| > 0 && actors[0].Idle? && readyChan != []
      requires c.g.nodes <= streamDepsRemaining.Keys && c.g.nodes <= stateDepsRemaining.Keys
      modifies this
      ensures Leads(c, old(View()), run, View()) && run != [] && run[0] == Receive
      ensures |actors| > 0 && var t := old(readyChan)[0];
        if t !in old(dispatchedTasks) && t in old(taskStatuses) && old(taskStatuses)[t] == Pending
        then t in dispatchedTasks && t in taskStatuses && (blocked || actors[0] == Enqueueing(t))
        else !blocked && run == [Receive]
    {
      ghost var s0 := View();
      blocked, run := false, [Receive];
      OneStep(c, s0, Receive);
      var taskID, dispatch := TakeReady();
      if dispatch {
        blocked, run := SignalDependents(0, Stream, taskID, s0, run);
      }
    }

    /** The report of a worker, as one step of the machine, and whether the task's dependents are to be told. */
    method ReportEnd(a: nat, taskID: TaskId, outcome: Status, taskErr: Option<TaskErr>)
      returns (signal: bool, ghost step: Step)
      requires CanComplete(c, View(), a, outcome, false) && actors[a] == Executing(taskID)
      modifies this`taskStatuses, this`taskErrors, this`actors, this`fatalErrChan
      ensures step == Complete(a, outcome, outcome == Failed && taskID !in c.ignoreErrors && IsFatal(taskErr))
      ensures Leads(c, old(View()), [step], View()) && |actors| == |old(actors)|
      ensures signal <==> old(taskStatuses)[taskID] in {Pending, Running} && outcome in {Completed, Skipped}
      ensures actors[a] == if signal then Signalling(State, taskID, c.g.RequiredBy(taskID), Next) else Idle
      ensures old(taskStatuses)[taskID] in {Pending, Running} ==> taskStatuses == old(taskStatuses)[taskID := outcome]
      ensures fatalErrChan ==
        if old(fatalErrChan).None? && old(taskStatuses)[taskID] in {Pending, Running} && step.raises
        then Some(taskErr.value.text) else old(fatalErrChan)
    {
      ghost var s0 := View();
      var first;
      ghost var raises;
      first, raises := RecordOutcome(a, taskID, outcome, taskErr);
      step := Complete(a, outcome, raises);
      OneStep(c, s0, step);
      signal := first && outcome.Succeeded();
    }

    /**
     A worker reports the end of its task: the first report counts and sets the status, success signals the
     state dependents, and a failure that is not to be ignored puts its error on the fatal channel.
     */
    method HandleTaskCompletion(a: nat, taskID: TaskId, outcome: Status, taskErr: Option<TaskErr>)
      returns (blocked: bool, ghost run: seq<Step>)
      requires CanComplete(c, View(), a, outcome, false) && actors[a] == Executing(taskID)
      requires c.g.nodes <= streamDepsRemaining.Keys && c.g.nodes <= stateDepsRemaining.Keys
      modifies this
      ensures Leads(c, old(View()), run, View()) && run != []
      ensures run[0] == Complete(a, outcome, outcome == Failed && taskID !in c.ignoreErrors && IsFatal(taskErr))
      ensures !blocked ==> a < |actors| && actors[a] == Idle
      ensures old(taskStatuses)[taskID] in {Pending, Running} ==> taskStatuses == old(taskStatuses)[taskID := outcome]
      ensures firstFatalError == old(firstFatalError) && runCancelled == old(runCancelled)
      ensures fatalErrChan ==
        if old(fatalErrChan).None? && old(taskStatuses)[taskID] in {Pending, Running} && run[0].raises
        then Some(taskErr.value.text) else old(fatalErrChan)
    {
      var signal;
      ghost var s0 := View();
      ghost var step;
      signal, step := ReportEnd(a, taskID, outcome, taskErr);
      blocked, run := false, [step];
      if signal {
        blocked, run := SignalDependents(a, State, taskID, s0, run);
      }
    }

    // ---- Methods that only look ----

    method CountTerminalTasks() returns (count: nat)
      ensures count == |set t | t in taskStatuses && taskStatuses[t] in {Completed, Failed, Skipped}|
    {
      var todo := taskStatuses.Keys;
      count := 0;
      ghost var counted := {};
      while todo != {}
        invariant todo <= taskStatuses.Keys && count == |counted|
        invariant counted == taskStatuses.Keys - todo - NonTerminal(taskStatuses)
        decreases todo
      {
        var id :| id in todo;
        if taskStatuses[id].Terminal() {
          count, counted := count + 1, counted + {id};
        }
        todo := todo - {id};
      }
      assert counted == set t | t in taskStatuses && taskStatuses[t] in {Completed, Failed, Skipped};
    }

    ghost function Runnable(): set<TaskId>
      reads this
    {
      set t | t in taskStatuses && taskStatuses[t] == Pending && View().BothZero(t)
    }

    method CountRunnablePendingTasks() returns (count: nat)
      requires taskStatuses.Keys <= streamDepsRemaining.Keys && taskStatuses.Keys <= stateDepsRemaining.Keys
      ensures count == |Runnable()|
      ensures count == 0 <==> forall t ::
        t in taskStatuses && taskStatuses[t] == Pending ==> streamDepsRemaining[t] != 0 || stateDepsRemaining[t] != 0
    {
      var todo := taskStatuses.Keys;
      count := 0;
      ghost var counted := {};
      while todo != {}
        invariant todo <= taskStatuses.Keys && count == |counted|
        invariant counted == Runnable() - todo
        decreases todo
      {
        var id :| id in todo;
        if taskStatuses[id] == Pending {
          var ready := IsTaskReady(id);
          if ready { count, counted := count + 1, counted + {id}; }
        }
        todo := todo - {id};
      }
      assert counted == Runnable();
      NoneLeft(Runnable());
    }

    method HasPendingTasks() returns (some: bool)
      ensures some <==> exists t :: t in taskStatuses && taskStatuses[t] == Pending
    {
      var todo := taskStatuses.Keys;
      while todo != {}
        invariant todo <= taskStatuses.Keys
        invariant forall t :: t in taskStatuses && taskStatuses[t] == Pending ==> t in todo
        decreases todo
      {
        var id :| id in todo;
        if taskStatuses[id] == Pending {
          return true;
        }
        todo := todo - {id};
      }
      return false;
    }

    /** The error the run ends with, whatever order the states are looked at. */
    method DetermineFinalOutcome(firstFatal: Option<RunError>) returns (err: Option<FinalError>)
      ensures OutcomeIs(err, firstFatal, taskStatuses, stateDepsRemaining)
    {
      if firstFatal.Some? {
        match firstFatal.value {
          case ContextDone => return Some(StoppedBy(ContextDone));
          case Stalled => return Some(StoppedBy(Stalled));
          case TaskError(m) =>
            if m == STALLED {
              return Some(StoppedBy(TaskError(m)));
            }
            return Some(FatalError(TaskError(m)));
        }
      }
      var hasFailed, hasUnexpectedPending := false, false;
      var todo := taskStatuses.Keys;
      while todo != {}
        invariant todo <= taskStatuses.Keys
        invariant hasFailed <==> exists t :: t in taskStatuses && t !in todo && taskStatuses[t].Failed?
        invariant hasUnexpectedPending <==>
          exists t :: t in taskStatuses && t !in todo && taskStatuses[t].Pending?
            && !WaitsForState(stateDepsRemaining, t)
        decreases todo
      {
        var id :| id in todo;
        if taskStatuses[id] == Failed { hasFailed := true; }
        if taskStatuses[id] == Pending && !(id in stateDepsRemaining && stateDepsRemaining[id] > 0) {
          hasUnexpectedPending := true;
        }
        todo := todo - {id};
      }
      err := if hasUnexpectedPending then Some(UnexpectedPending) else if hasFailed then Some(FailedTasks) else None;
    }

    method GenerateReport(finalErr: Option<string>) returns (report: Report)
      ensures Reports(report, taskStatuses, taskErrors, finalErr)
    {
      report := Report(ReportCompleted, "", 0, 0, 0, 0, map[]);
      if finalErr.Some? {
        report := report.(overall := ReportFailed, error := finalErr.value);
      }
      var todo := taskStatuses.Keys;
      StartReport(report, taskStatuses, taskErrors, finalErr);
      while todo != {}
        invariant todo <= taskStatuses.Keys && ReportsSoFar(report, taskStatuses, taskErrors, finalErr, todo)
        decreases todo
      {
        var id :| id in todo;
        ghost var before := report;
        report := AddToReport(report, id, taskStatuses[id], if id in taskErrors then taskErrors[id] else "");
        ReportStep(before, report, taskStatuses, taskErrors, finalErr, todo, id);
        todo := todo - {id};
      }
      ghost var before := report;
      report := report.(total := |taskStatuses|);
      if report.failed > 0 && report.overall == ReportCompleted {
        report := report.(overall := ReportFailed);
        if report.error == "" { report := report.(error := "Playbook finished with one or more failed tasks"); }
      }
      ReportDone(before, report, taskStatuses, taskErrors, finalErr);
    }
  }
}
