/**
 A run that can take no further step has finished its work, if the ready channel is large enough. Here a
 task that a worker executes can always come to its end, and the scheduler stays in its loop: when
 streaming tasks come to their end is the subject of StreamFlow and StreamPair, and when the loop is
 left early that of SchedulerExits.
 */
module SchedulerProgress {
  import opened Prelude
  import opened Graphs
  import opened Scheduler
  import opened SchedulerInvariant
  import opened SchedulerSignals
  import opened SchedulerWakeups
  import opened SchedulerTheorems

  function BothKinds(g: Graph): set<TaskId> {
    set n | n in g.nodes && HasBothKinds(g, n)
  }

  lemma MultisetBound(m: multiset<TaskId>, a: set<TaskId>, b: set<TaskId>)
    requires forall x :: m[x] <= One(x in a) + One(x in b)
    ensures |m| <= |a| + |b|
  {
    var whole := multiset(a) + multiset(b);
    var rest := whole - m;
    assert m + rest == whole;
    assert |m + rest| == |m| + |rest|;
  }

  lemma SendsInGraph(c: Config, s: Sys)
    requires Reachable(c, s)
    ensures |s.ready| <= |s.sends| && forall n :: n in s.sends ==> n in c.g.nodes
  {
    ReachableInv(c, s);
  }

  /** An actor about to send d still has room in the budget of d. */
  lemma SendBudget(c: Config, s: Sys, d: TaskId, x: TaskId)
    requires Reachable(c, s) && d in c.g.nodes && Checking(s, d) != {}
    ensures Sent(s, x) + One(x == d) <= One(x in c.g.nodes) + One(x in BothKinds(c.g))
  {
    if x in c.g.nodes {
      SendsAreBounded(c, s, x);
      assert x == d ==> |Checking(s, x)| >= 1;
    } else {
      SendsInGraph(c, s);
    }
  }

  /** While some actor is about to send d, the sends so far and this one fit the budget of all tasks. */
  lemma TotalSends(c: Config, s: Sys, d: TaskId)
    requires Reachable(c, s) && d in c.g.nodes && Checking(s, d) != {}
    ensures |s.sends| + 1 <= |c.g.nodes| + |BothKinds(c.g)|
  {
    var m := multiset(s.sends) + multiset{d};
    forall x ensures m[x] <= One(x in c.g.nodes) + One(x in BothKinds(c.g)) {
      SendBudget(c, s, d, x);
    }
    MultisetBound(m, c.g.nodes, BothKinds(c.g));
  }

  /** If the channel holds one message per task and one more per task with both kinds of producers, no send waits. */
  lemma SendsNeverWait(c: Config, s: Sys, a: nat)
    requires Reachable(c, s) && IsSignalling(s, a) && s.actors[a].phase.Send?
    requires c.readyCap >= |c.g.nodes| + |BothKinds(c.g)|
    ensures Enabled(c, s, SendReady(a))
  {
    SenderChecks(c, s, a);
    TotalSends(c, s, s.actors[a].phase.dep);
    SendsInGraph(c, s);
  }

  lemma SenderChecks(c: Config, s: Sys, a: nat)
    requires Reachable(c, s) && IsSignalling(s, a) && s.actors[a].phase.Send?
    ensures |s.actors| > 0 && s.actors[a].phase.dep in c.g.nodes && Checking(s, s.actors[a].phase.dep) != {}
  {
    ReachableInv(c, s);
    assert ActorShape(c, a, s.actors[a]);
    assert Checks(s.actors[a], s.actors[a].phase.dep) && a in Checking(s, s.actors[a].phase.dep);
  }

  // ---- A little less room is enough for the scheduler ----

  lemma StepDrains(c: Config, s: Sys, step: Step)
    requires |s.ready| + |s.dispatched| <= |s.sends| && Enabled(c, s, step)
    ensures var s' := Apply(c, s, step); |s'.ready| + |s'.dispatched| <= |s'.sends|
  {
    match step
    case Decrement(a, d) => DecrementMoves(c, s, a, d);
    case Complete(a, o, r) => CompleteMoves(c, s, a, o, r);
    case _ =>
  }

  lemma {:induction false} RunDrains(c: Config, s: Sys, run: seq<Step>)
    requires |s.ready| + |s.dispatched| <= |s.sends| && IsRun(c, s, run)
    ensures var s' := After(c, s, run); |s'.ready| + |s'.dispatched| <= |s'.sends|
    decreases |run|
  {
    if run != [] {
      StepDrains(c, s, run[0]);
      RunDrains(c, Apply(c, s, run[0]), run[1..]);
    }
  }

  /** Every dispatched task has used up a message. */
  lemma DispatchUsesMessages(c: Config, s: Sys)
    requires Reachable(c, s)
    ensures |s.ready| + |s.dispatched| <= |s.sends|
  {
    var s0, run :| c.g.WellFormed() && Init(c, s0) && IsRun(c, s0, run) && s == After(c, s0, run);
    RunDrains(c, s0, run);
  }

  /** Room for one message per task, and for all possible messages but two. */
  predicate RoomForScheduler(c: Config) {
    c.readyCap >= |c.g.nodes| && c.readyCap + 2 >= |c.g.nodes| + |BothKinds(c.g)|
  }

  /** Once two tasks are dispatched no send waits any more. */
  lemma TwoDispatched(c: Config, s: Sys, a: nat)
    requires Reachable(c, s) && IsSignalling(s, a) && s.actors[a].phase.Send? && |s.dispatched| >= 2
    requires RoomForScheduler(c)
    ensures |s.ready| < c.readyCap
  {
    SenderChecks(c, s, a);
    TotalSends(c, s, s.actors[a].phase.dep);
    DispatchUsesMessages(c, s);
  }

  /** While the scheduler holds the only task dispatched, nothing has succeeded yet, so no task has been sent twice. */
  lemma FirstSends(c: Config, s: Sys, x: TaskId)
    requires Reachable(c, s) && IsSignalling(s, 0) && s.dispatched == {s.actors[0].task}
    ensures Sent(s, x) <= One(x in c.g.nodes)
  {
    ReachableInv(c, s);
    assert ActorShape(c, 0, s.actors[0]) && HeldStatus(s, s.actors[0]);
    if x !in c.g.nodes {
      SendsInGraph(c, s);
    } else {
      SendsAreBounded(c, s, x);
      if Sent(s, x) > 0 && HasBothKinds(c.g, x) {
        var p :| p in c.g.Deps(State, x);
        ZeroMeansMet(c, s, State, x, p);
      }
    }
  }

  /** The scheduler never waits to send: at its first task few messages exist, and later enough have been received. */
  lemma SchedulerNeverBlocks(c: Config, s: Sys)
    requires Reachable(c, s) && IsSignalling(s, 0) && s.actors[0].phase.Send? && RoomForScheduler(c)
    ensures |s.ready| < c.readyCap
  {
    var t := s.actors[0].task;
    HeldIsDispatched(c, s, 0);
    if |s.dispatched| >= 2 {
      TwoDispatched(c, s, 0);
    } else {
      SubsetCard({t}, s.dispatched);
      forall x ensures multiset(s.sends)[x] <= One(x in c.g.nodes) + One(x in {}) { FirstSends(c, s, x); }
      MultisetBound(multiset(s.sends), c.g.nodes, {});
      DispatchUsesMessages(c, s);
    }
  }

  lemma HeldIsDispatched(c: Config, s: Sys, a: nat)
    requires Reachable(c, s) && a < |s.actors| && HeldTask(s.actors[a]).Some?
    ensures HeldTask(s.actors[a]).value in s.dispatched
  {
    ReachableInv(c, s);
    assert ActorShape(c, a, s.actors[a]) && HeldStatus(s, s.actors[a]);
  }

  /**
   Leaving the loop, leaving the pool and outside cancellation are not progress. The end of an executing
   task is, so a state that only waits for a task to end is not stuck.
   */
  predicate Progresses(step: Step) {
    !step.CancelOutside? && !step.SchedulerStop? && !step.WorkerExit?
  }

  ghost predicate Stuck(c: Config, s: Sys) {
    forall step :: Progresses(step) ==> !Enabled(c, s, step)
  }

  ghost predicate AllPresent(s: Sys) {
    forall a :: 0 <= a < |s.actors| ==> !s.actors[a].Exited?
  }

  lemma SignallerMoves(c: Config, s: Sys, a: nat) returns (step: Step)
    requires Reachable(c, s) && IsSignalling(s, a)
    requires s.actors[a].phase.Send? ==> |s.ready| < c.readyCap
    ensures Progresses(step) && Enabled(c, s, step)
  {
    ReachableInv(c, s);
    assert ActorShape(c, a, s.actors[a]);
    match s.actors[a].phase
    case Next =>
      if s.actors[a].todo == {} { step := FinishSignals(a); }
      else { var d :| d in s.actors[a].todo; step := Decrement(a, d); }
    case LoadStream(_) => step := Load(a);
    case LoadState(_) => step := Load(a);
    case Send(_) => step := SendReady(a);
  }

  /** With work queued or executing, some worker can move. */
  lemma WorkerMoves(c: Config, s: Sys, a: nat) returns (step: Step)
    requires Reachable(c, s) && AllPresent(s) && 0 < a < |s.actors|
    requires s.queue != [] || !s.actors[a].Idle?
    requires IsSignalling(s, a) && s.actors[a].phase.Send? ==> |s.ready| < c.readyCap
    ensures Progresses(step) && Enabled(c, s, step)
  {
    ReachableInv(c, s);
    assert ActorShape(c, a, s.actors[a]);
    match s.actors[a]
    case Idle => step := Take(a);
    case Executing(_) => step := Complete(a, Completed, false);
    case Signalling(_, _, _, _) => step := SignallerMoves(c, s, a);
  }

  /** A scheduler that waits for room in the work queue has two tasks dispatched, so the workers can go on. */
  lemma FullQueueMoves(c: Config, s: Sys) returns (step: Step)
    requires Reachable(c, s) && AllPresent(s) && |s.actors| == c.workers + 1 >= 2 && RoomForScheduler(c)
    requires s.actors[0].Enqueueing? && s.queue != []
    ensures Progresses(step) && Enabled(c, s, step)
  {
    if IsSignalling(s, 1) && s.actors[1].phase.Send? {
      QueuedIsDispatched(c, s);
      TwoDispatched(c, s, 1);
    }
    step := WorkerMoves(c, s, 1);
  }

  lemma QueuedIsDispatched(c: Config, s: Sys)
    requires Reachable(c, s) && |s.actors| > 0 && s.actors[0].Enqueueing? && s.queue != []
    ensures |s.dispatched| >= 2
  {
    HeldIsDispatched(c, s, 0);
    HeadIsDispatched(c, s);
    SubsetCard({s.actors[0].task, s.queue[0]}, s.dispatched);
  }

  lemma HeadIsDispatched(c: Config, s: Sys)
    requires Reachable(c, s) && |s.actors| > 0 && s.actors[0].Enqueueing? && s.queue != []
    ensures s.queue[0] in s.dispatched && s.queue[0] != s.actors[0].task
  {
    ReachableInv(c, s);
    HeadInPlace(c, s);
  }

  lemma HeadInPlace(c: Config, s: Sys)
    requires QueueSound(s) && HeldOnce(s) && StatusTracksDispatch(c, s) && s.status.Keys == c.g.nodes
    requires |s.actors| > 0 && s.actors[0].Enqueueing? && s.queue != []
    ensures s.queue[0] in s.dispatched && s.queue[0] != s.actors[0].task
  {
  }

  lemma StuckNotSignalling(c: Config, s: Sys)
    requires Reachable(c, s) && Stuck(c, s) && RoomForScheduler(c)
    ensures !IsSignalling(s, 0)
  {
    if IsSignalling(s, 0) {
      if s.actors[0].phase.Send? { SchedulerNeverBlocks(c, s); }
      var step := SignallerMoves(c, s, 0);
      assert false;
    }
  }

  lemma StuckNotEnqueueing(c: Config, s: Sys)
    requires Reachable(c, s) && AllPresent(s) && Stuck(c, s) && |s.actors| == c.workers + 1 >= 2 && RoomForScheduler(c)
    ensures !s.actors[0].Enqueueing?
  {
    assert !Enabled(c, s, Enqueue);
    if s.actors[0].Enqueueing? {
      var step := FullQueueMoves(c, s);
      assert false;
    }
  }

  lemma SchedulerPlace(c: Config, s: Sys)
    requires Reachable(c, s)
    ensures |s.actors| == c.workers + 1 && !s.actors[0].Executing?
  {
    ReachableInv(c, s);
    assert ActorShape(c, 0, s.actors[0]);
  }

  lemma StuckSchedulerIdle(c: Config, s: Sys)
    requires Reachable(c, s) && AllPresent(s) && Stuck(c, s)
    requires c.workers >= 1 && RoomForScheduler(c)
    ensures |s.actors| == c.workers + 1 && s.actors[0].Idle? && s.ready == [] && !s.fatal
  {
    SchedulerPlace(c, s);
    StuckNotSignalling(c, s);
    StuckNotEnqueueing(c, s);
    assert !Enabled(c, s, Receive);
    assert !Enabled(c, s, TakeFatal);
  }

  lemma StuckWorkersIdle(c: Config, s: Sys, a: nat)
    requires Reachable(c, s) && AllPresent(s) && Stuck(c, s) && 0 < a < |s.actors|
    requires s.ready == [] && RoomForScheduler(c)
    ensures s.actors[a].Idle? && s.queue == []
  {
    if s.queue != [] || !s.actors[a].Idle? {
      if IsSignalling(s, a) && s.actors[a].phase.Send? {
        SenderChecks(c, s, a);
        SubsetCard({s.actors[a].phase.dep}, c.g.nodes);
      }
      var step := WorkerMoves(c, s, a);
      assert false;
    }
  }

  lemma IdleMeansQuiescent(c: Config, s: Sys)
    requires Reachable(c, s) && s.queue == [] && s.ready == []
    requires forall a :: 0 <= a < |s.actors| ==> s.actors[a].Idle?
    ensures Quiescent(s)
  {
    ReachableInv(c, s);
    forall t | t in s.status ensures s.status[t] != Running {
      assert forall a :: 0 <= a < |s.actors| ==> HeldTask(s.actors[a]) == None;
    }
  }

  /**
   A reachable state in which nobody has left, and no task is executing that could still end, is
   quiescent once nothing can move.
   */
  lemma StuckMeansQuiescent(c: Config, s: Sys)
    requires Reachable(c, s) && AllPresent(s) && Stuck(c, s)
    requires c.workers >= 1 && RoomForScheduler(c)
    ensures Quiescent(s) && !s.fatal
  {
    assert |s.actors| == c.workers + 1 by { ReachableInv(c, s); }
    StuckSchedulerIdle(c, s);
    StuckWorkersIdle(c, s, 1);
    forall a | 0 <= a < |s.actors| ensures s.actors[a].Idle? {
      if a > 0 { StuckWorkersIdle(c, s, a); }
    }
    IdleMeansQuiescent(c, s);
  }

  // ---- Runs in which nothing fails ----

  /** No task fails, nobody cancels, and neither the scheduler nor a worker leaves its loop. */
  predicate IsClean(step: Step) {
    Progresses(step) && (step.Complete? ==> step.outcome.Succeeded())
  }

  ghost predicate CleanState(s: Sys) {
    AllPresent(s) && !s.cancelled && !s.fatal && forall t :: t in s.status ==> s.status[t] != Failed
  }

  lemma CleanComplete(c: Config, s: Sys, a: nat, o: Status, r: bool)
    requires CleanState(s) && CanComplete(c, s, a, o, r) && o.Succeeded()
    ensures CleanState(ApplyComplete(c, s, a, o, r))
  {
  }

  lemma CleanReceive(c: Config, s: Sys)
    requires CleanState(s) && CanReceive(s)
    ensures CleanState(ApplyReceive(c, s))
  {
  }

  lemma CleanDecrement(c: Config, s: Sys, a: nat, d: TaskId)
    requires CleanState(s) && CanDecrement(s, a, d)
    ensures CleanState(ApplyDecrement(c, s, a, d))
  {
  }

  lemma CleanStep(c: Config, s: Sys, step: Step)
    requires CleanState(s) && Enabled(c, s, step) && IsClean(step)
    ensures CleanState(Apply(c, s, step))
  {
    match step
    case Receive => CleanReceive(c, s);
    case Decrement(a, d) => CleanDecrement(c, s, a, d);
    case Complete(a, o, r) => CleanComplete(c, s, a, o, r);
    case Load(a) =>
    case SendReady(a) =>
    case FinishSignals(a) =>
    case Enqueue =>
    case Take(a) =>
    case EnqueueCancelled =>
    case TakeFatal =>
  }

  lemma {:induction false} CleanRun(c: Config, s: Sys, run: seq<Step>)
    requires CleanState(s) && IsRun(c, s, run) && forall i :: 0 <= i < |run| ==> IsClean(run[i])
    ensures CleanState(After(c, s, run))
    decreases |run|
  {
    if run != [] {
      CleanStep(c, s, run[0]);
      CleanRun(c, Apply(c, s, run[0]), run[1..]);
    }
  }

  /**
   If no task fails, nothing is cancelled, every started task comes to its end and the scheduler stays in
   its loop, a run that can go no further has completed or skipped every task.
   */
  lemma CleanRunsFinish(c: Config, s: Sys, run: seq<Step>)
    requires c.g.WellFormed() && c.g.Acyclic() && c.workers >= 1 && RoomForScheduler(c)
    requires Init(c, s) && IsRun(c, s, run) && forall i :: 0 <= i < |run| ==> IsClean(run[i])
    requires Stuck(c, After(c, s, run))
    ensures var end := After(c, s, run);
      end.status.Keys == c.g.nodes && forall t :: t in end.status ==> end.status[t].Succeeded()
  {
    var end := After(c, s, run);
    assert Reachable(c, end);
    CleanRun(c, s, run);
    StuckMeansQuiescent(c, end);
    NoFailureMeansAllDone(c, end);
  }
}
