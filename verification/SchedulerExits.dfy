/**
 How the scheduler's ticker ends the loop early, and what it abandons. The ticker looks at three
 things one after the other: that no worker is counted as active, that no Pending task is ready, and
 that some task is Pending. The workers go on between its looks.
 */
module SchedulerExits {
  import opened Prelude
  import opened Graphs
  import opened Scheduler
  import opened SchedulerInvariant
  import opened SchedulerSteps
  import opened SchedulerTheorems
  import opened Outcome

  /** A step of a worker or of the context: what can happen while the scheduler is busy with its ticker. */
  predicate IsOthers(step: Step) {
    match step
    case Decrement(a, _) => a > 0
    case Load(a) => a > 0
    case SendReady(a) => a > 0
    case FinishSignals(a) => a > 0
    case Take(_) => true
    case Complete(_, _, _) => true
    case WorkerExit(_) => true
    case CancelOutside => true
    case _ => false
  }

  /** These are all the steps that the scheduler does not take itself. */
  lemma OthersAre(c: Config, s: Sys, step: Step)
    requires Enabled(c, s, step)
    ensures IsOthers(step) <==> step == CancelOutside || Actor(step) > 0
  {
  }

  /**
   What the count of active workers being zero says: a worker is counted only after it has taken its
   task, and until it has handled the end of it.
   */
  ghost predicate NoneActive(s: Sys) {
    forall a :: 0 < a < |s.actors| ==> s.actors[a].Idle? || s.actors[a].Exited? || s.actors[a].Executing?
  }

  ghost predicate NoneRunnable(s: Sys) {
    forall t :: t in s.status && s.status[t] == Pending ==> !s.BothZero(t)
  }

  ghost predicate SomePending(s: Sys) {
    exists t :: t in s.status && s.status[t] == Pending
  }

  ghost predicate SomeRunning(s: Sys) {
    exists t :: t in s.status && s.status[t] == Running
  }

  ghost predicate OthersRun(c: Config, s: Sys, run: seq<Step>) {
    IsRun(c, s, run) && forall i :: 0 <= i < |run| ==> IsOthers(run[i])
  }

  /** The early break: the looks succeed in s, after first, and after second. */
  ghost predicate TickerBreaks(c: Config, s: Sys, first: seq<Step>, second: seq<Step>) {
    && |s.actors| > 0 && s.actors[0].Idle? && NoneActive(s)
    && OthersRun(c, s, first)
    && var s1 := After(c, s, first);
       && NoneRunnable(s1) && OthersRun(c, s1, second) && SomePending(After(c, s1, second))
  }

  // ---- With nothing Running, everything waits for the scheduler ----

  /** No worker holds a task, and none is queued. */
  ghost predicate WorkersRest(s: Sys) {
    && |s.actors| > 0 && s.actors[0].Idle? && s.queue == []
    && forall a :: 0 < a < |s.actors| ==> s.actors[a].Idle? || s.actors[a].Exited?
  }

  lemma NothingRunningRests(c: Config, s: Sys)
    requires Reachable(c, s) && |s.actors| > 0 && s.actors[0].Idle? && NoneActive(s) && !SomeRunning(s)
    ensures WorkersRest(s)
  {
    ReachableInv(c, s);
    NothingQueued(s);
    forall a | 0 < a < |s.actors|
      ensures s.actors[a].Idle? || s.actors[a].Exited?
    {
      assert HeldStatus(s, s.actors[a]);
    }
  }

  lemma NothingQueued(s: Sys)
    requires QueueSound(s) && !SomeRunning(s)
    ensures s.queue == []
  {
    EmptyOrNot(s.queue);
  }

  /** What stays the same while workers only rest or leave. */
  ghost predicate Frozen(s: Sys, s': Sys) {
    && WorkersRest(s') && s'.status == s.status && s'.streamLeft == s.streamLeft && s'.stateLeft == s.stateLeft
    && s'.ready == s.ready && s'.dispatched == s.dispatched
  }

  lemma {:induction false} RestingStaysFrozen(c: Config, s: Sys, run: seq<Step>)
    requires WorkersRest(s) && OthersRun(c, s, run)
    ensures Frozen(s, After(c, s, run))
    decreases |run|
  {
    if run != [] {
      assert IsOthers(run[0]);
      var s1 := Apply(c, s, run[0]);
      assert Frozen(s, s1);
      forall i | 0 <= i < |run[1..]| ensures IsOthers(run[1..][i]) { assert run[1..][i] == run[i + 1]; }
      RestingStaysFrozen(c, s1, run[1..]);
    }
  }

  // ---- The messages left on the ready channel are duplicates ----

  /** All ids on the ready channel were dispatched before. */
  ghost predicate OnlyDuplicates(s: Sys) {
    forall t :: t in s.ready ==> t in s.dispatched
  }

  lemma NothingNew(c: Config, s: Sys)
    requires Reachable(c, s) && NoneRunnable(s)
    ensures OnlyDuplicates(s)
  {
    ReachableInv(c, s);
    forall t | t in s.ready ensures t in s.dispatched {
      assert t in s.sends && t in c.g.nodes && s.BothZero(t);
    }
  }

  /** Receiving the duplicates changes nothing but the ready channel. */
  lemma {:induction false} Drain(c: Config, s: Sys) returns (s': Sys)
    requires Reachable(c, s) && |s.actors| > 0 && s.actors[0].Idle? && OnlyDuplicates(s)
    ensures Reachable(c, s') && s' == s.(ready := [])
    decreases |s.ready|
  {
    if s.ready == [] {
      s' := s;
    } else {
      assert s.ready[0] in s.ready;
      ReachNext(c, s, Receive);
      var s1 := ApplyReceive(c, s);
      assert s1 == s.(ready := s.ready[1..]);
      s' := Drain(c, s1);
    }
  }

  /**
   When the first look finds no worker active and the second no task ready, in one and the same state
   without a Failed task, then all tasks are done exactly if none is Running.
   */
  lemma DoneUnlessRunning(c: Config, s: Sys)
    requires Reachable(c, s) && c.g.Acyclic() && |s.actors| > 0 && s.actors[0].Idle?
    requires NoneActive(s) && NoneRunnable(s) && !SomeFailed(s.status)
    ensures AllSucceeded(s.status) <==> !SomeRunning(s)
  {
    if !SomeRunning(s) {
      NothingRunningRests(c, s);
      NothingNew(c, s);
      var s' := Drain(c, s);
      assert Quiescent(s');
      assert forall t :: t in s'.status ==> s'.status[t] != Failed;
      NoFailureMeansAllDone(c, s');
    }
  }

  lemma {:induction false} ReachRun(c: Config, s: Sys, run: seq<Step>)
    requires Reachable(c, s) && IsRun(c, s, run)
    ensures Reachable(c, After(c, s, run))
    decreases |run|
  {
    if run != [] {
      ReachNext(c, s, run[0]);
      ReachRun(c, Apply(c, s, run[0]), run[1..]);
    }
  }

  /**
   The early break ends a run in which nothing failed only if some task is Running when it first looks:
   queued, or taken by a worker that is not counted yet.
   */
  lemma EarlyBreakAbandonsRunning(c: Config, s: Sys, first: seq<Step>, second: seq<Step>)
    requires Reachable(c, s) && c.g.Acyclic() && TickerBreaks(c, s, first, second)
    requires !SomeFailed(After(c, After(c, s, first), second).status)
    ensures SomeRunning(s)
    ensures (forall a :: 0 < a < |s.actors| ==> !s.actors[a].Executing?) ==> s.queue != []
  {
    if !SomeRunning(s) {
      NothingRunningRests(c, s);
      RestingStaysFrozen(c, s, first);
      var s1 := After(c, s, first);
      RestingStaysFrozen(c, s1, second);
      ReachRun(c, s, first);
      DoneUnlessRunning(c, s1);
    } else if forall a :: 0 < a < |s.actors| ==> !s.actors[a].Executing? {
      RunningIsQueued(c, s);
    }
  }

  lemma RunningIsQueued(c: Config, s: Sys)
    requires Reachable(c, s) && SomeRunning(s) && |s.actors| > 0 && s.actors[0].Idle?
    requires NoneActive(s) && forall a :: 0 < a < |s.actors| ==> !s.actors[a].Executing?
    ensures s.queue != []
  {
    ReachableInv(c, s);
    var t :| t in s.status && s.status[t] == Running;
    assert forall a :: 0 <= a < |s.actors| ==> HeldTask(s.actors[a]) == None;
    assert t in s.queue;
  }

  // ---- After the loop ----

  /** The scheduler has left, and all tasks at hand or queued were dispatched. */
  ghost predicate Left(s: Sys) {
    && |s.actors| > 0 && s.actors[0].Exited?
    && (forall a :: 0 < a < |s.actors| && HeldTask(s.actors[a]).Some? ==> HeldTask(s.actors[a]).value in s.dispatched)
    && forall t :: t in s.queue ==> t in s.dispatched
  }

  ghost predicate PendingKept(s: Sys, s': Sys) {
    && s'.dispatched == s.dispatched
    && forall t :: t in s.status && t !in s.dispatched ==> t in s'.status && s'.status[t] == s.status[t]
  }

  lemma LeftComplete(c: Config, s: Sys, a: nat, o: Status, r: bool)
    requires Left(s) && CanComplete(c, s, a, o, r)
    ensures Left(ApplyComplete(c, s, a, o, r)) && PendingKept(s, ApplyComplete(c, s, a, o, r))
  {
  }

  lemma LeftDecrement(c: Config, s: Sys, a: nat, d: TaskId)
    requires Left(s) && CanDecrement(s, a, d)
    ensures Left(ApplyDecrement(c, s, a, d)) && PendingKept(s, ApplyDecrement(c, s, a, d))
  {
  }

  lemma LeftStep(c: Config, s: Sys, step: Step)
    requires Left(s) && Enabled(c, s, step)
    ensures Left(Apply(c, s, step)) && PendingKept(s, Apply(c, s, step))
  {
    match step
    case Decrement(a, d) => LeftDecrement(c, s, a, d);
    case Complete(a, o, r) => LeftComplete(c, s, a, o, r);
    case Take(a) => assert s.queue[0] in s.queue;
    case _ =>
  }

  /** Once the scheduler has left, tasks that are Pending stay Pending, whatever the workers still do. */
  lemma {:induction false} AbandonedForever(c: Config, s: Sys, run: seq<Step>)
    requires Left(s) && IsRun(c, s, run)
    ensures PendingKept(s, After(c, s, run))
    decreases |run|
  {
    if run != [] {
      LeftStep(c, s, run[0]);
      AbandonedForever(c, Apply(c, s, run[0]), run[1..]);
    }
  }

  /** A break at a reachable state abandons every task that is Pending then. */
  lemma BreakAbandonsPending(c: Config, s: Sys, run: seq<Step>, t: TaskId)
    requires Reachable(c, s) && Enabled(c, s, SchedulerStop) && IsRun(c, Apply(c, s, SchedulerStop), run)
    requires t in s.status && s.status[t] == Pending
    ensures var end := After(c, Apply(c, s, SchedulerStop), run);
      t !in end.dispatched && t in end.status && end.status[t] == Pending
  {
    ReachableInv(c, s);
    assert t in c.g.nodes;
    var s1 := Apply(c, s, SchedulerStop);
    forall a | 0 < a < |s1.actors| && HeldTask(s1.actors[a]).Some?
      ensures HeldTask(s1.actors[a]).value in s1.dispatched
    {
      assert HeldStatus(s, s.actors[a]) && s1.actors[a] == s.actors[a];
    }
    assert Left(s1);
    AbandonedForever(c, s1, run);
  }
}
