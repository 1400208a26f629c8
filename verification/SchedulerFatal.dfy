/** How tasks end over whole runs: the status each gets, and what becomes of fatal errors. */
module SchedulerFatal {
  import opened Graphs
  import opened Scheduler
  import opened SchedulerInvariant
  import opened SchedulerWakeups
  import opened SchedulerTheorems

  // ---- The status of a task is the outcome with which it ended ----

  /** A task that ended, and how. */
  datatype End = End(task: TaskId, outcome: Status)

  /** The end that a step of a worker brings, or that the scheduler brings in its place once the run is cancelled. */
  function EndOf(s: Sys, step: Step): seq<End> {
    match step
    case Complete(a, outcome, _) =>
      if a < |s.actors| && s.actors[a].Executing? then [End(s.actors[a].task, outcome)] else []
    case EnqueueCancelled =>
      if |s.actors| > 0 && s.actors[0].Enqueueing? then [End(s.actors[0].task, Failed)] else []
    case _ => []
  }

  ghost function Ends(c: Config, s: Sys, run: seq<Step>): seq<End>
    requires IsRun(c, s, run)
    decreases |run|
  {
    if run == [] then [] else EndOf(s, run[0]) + Ends(c, Apply(c, s, run[0]), run[1..])
  }

  ghost predicate HasEnd(s: Sys, t: TaskId, outcome: Status) {
    t in s.status && s.status[t] == outcome && outcome.Terminal()
  }

  lemma StepEnd(c: Config, s: Sys, step: Step, t: TaskId, outcome: Status)
    requires Places(s) && Enabled(c, s, step)
    ensures HasEnd(Apply(c, s, step), t, outcome) <==> HasEnd(s, t, outcome) || End(t, outcome) in EndOf(s, step)
  {
    match step
    case Complete(a, o, r) => CompleteEnd(c, s, a, o, r, t, outcome);
    case EnqueueCancelled => CancelledEnd(c, s, t, outcome);
    case Receive => ReceiveEnd(c, s, t, outcome);
    case _ => StatusStays(c, s, step);
  }

  /** All other steps leave every status as it is. */
  lemma StatusStays(c: Config, s: Sys, step: Step)
    requires Enabled(c, s, step) && !step.Complete? && !step.EnqueueCancelled? && !step.Receive?
    ensures Apply(c, s, step).status == s.status && EndOf(s, step) == []
  {
    if step.Decrement? { DecrementStatus(c, s, step.actor, step.dep); }
  }

  lemma ReceiveEnd(c: Config, s: Sys, t: TaskId, outcome: Status)
    requires CanReceive(s)
    ensures HasEnd(ApplyReceive(c, s), t, outcome) <==> HasEnd(s, t, outcome)
  {
  }

  lemma CancelledEnd(c: Config, s: Sys, t: TaskId, outcome: Status)
    requires Places(s) && Enabled(c, s, EnqueueCancelled)
    ensures HasEnd(Apply(c, s, EnqueueCancelled), t, outcome) <==>
      HasEnd(s, t, outcome) || End(t, outcome) in EndOf(s, EnqueueCancelled)
  {
    assert HeldStatus(s, s.actors[0]);
  }

  lemma CompleteEnd(c: Config, s: Sys, a: nat, o: Status, r: bool, t: TaskId, outcome: Status)
    requires Places(s) && CanComplete(c, s, a, o, r)
    ensures HasEnd(ApplyComplete(c, s, a, o, r), t, outcome) <==>
      HasEnd(s, t, outcome) || End(t, outcome) in EndOf(s, Complete(a, o, r))
  {
    assert HeldStatus(s, s.actors[a]);
    CompleteStatus(c, s, a, o, r);
  }

  lemma CompleteStatus(c: Config, s: Sys, a: nat, o: Status, r: bool)
    requires CanComplete(c, s, a, o, r) && s.status[s.actors[a].task] == Running
    ensures ApplyComplete(c, s, a, o, r).status == s.status[s.actors[a].task := o]
  {
  }

  lemma DecrementStatus(c: Config, s: Sys, a: nat, d: TaskId)
    requires CanDecrement(s, a, d)
    ensures ApplyDecrement(c, s, a, d).status == s.status
  {
  }

  lemma {:induction false} RunEnds(c: Config, s: Sys, run: seq<Step>, t: TaskId, outcome: Status)
    requires Inv(c, s) && IsRun(c, s, run)
    ensures HasEnd(After(c, s, run), t, outcome) <==> HasEnd(s, t, outcome) || End(t, outcome) in Ends(c, s, run)
    decreases |run|
  {
    if run != [] {
      StepEnd(c, s, run[0], t, outcome);
      StepInv(c, s, run[0]);
      RunEnds(c, Apply(c, s, run[0]), run[1..], t, outcome);
    }
  }

  /**
   Over every run: a task is Completed, Skipped or Failed exactly if it ended so, by a worker or, failed, by
   the scheduler once the run was cancelled. As a status is one, no task ends in two ways.
   */
  lemma StatusIsOutcome(c: Config, s0: Sys, run: seq<Step>, t: TaskId, outcome: Status)
    requires c.g.WellFormed() && Init(c, s0) && IsRun(c, s0, run) && outcome.Terminal()
    ensures var s := After(c, s0, run);
      t in s.status && s.status[t] == outcome <==> End(t, outcome) in Ends(c, s0, run)
  {
    InitInv(c, s0);
    RunEnds(c, s0, run, t, outcome);
    assert t in s0.status ==> s0.status[t] == Pending;
  }

  // ---- Fatal errors ----

  /** A worker's task failed in a way that is not to be ignored. */
  predicate Raises(step: Step) {
    step.Complete? && step.raises
  }

  /** The error channel and the scheduler's own record after one step. */
  lemma StepFatal(c: Config, s: Sys, step: Step)
    requires Places(s) && Enabled(c, s, step)
    ensures var s' := Apply(c, s, step);
      && (s'.fatal <==> Raises(step) || (s.fatal && step != TakeFatal))
      && (s'.fatalSeen <==> s.fatalSeen || step == TakeFatal)
      && (s'.cancelled <==> s.cancelled || step == TakeFatal || step == CancelOutside)
      && (step == TakeFatal ==> s.fatal)
  {
    match step
    case Complete(a, o, r) =>
      assert HeldStatus(s, s.actors[a]);
      CompleteFatal(c, s, a, o, r);
    case Decrement(a, d) => DecrementFatal(c, s, a, d);
    case _ =>
  }

  lemma CompleteFatal(c: Config, s: Sys, a: nat, o: Status, r: bool)
    requires CanComplete(c, s, a, o, r) && s.status[s.actors[a].task] == Running
    ensures var s' := ApplyComplete(c, s, a, o, r);
      (s'.fatal <==> s.fatal || r) && s'.fatalSeen == s.fatalSeen && s'.cancelled == s.cancelled
  {
  }

  lemma DecrementFatal(c: Config, s: Sys, a: nat, d: TaskId)
    requires CanDecrement(s, a, d)
    ensures var s' := ApplyDecrement(c, s, a, d);
      s'.fatal == s.fatal && s'.fatalSeen == s.fatalSeen && s'.cancelled == s.cancelled
  {
  }

  ghost predicate Occurs(run: seq<Step>, step: Step) {
    exists i :: 0 <= i < |run| && run[i] == step
  }

  ghost predicate SomeRaises(run: seq<Step>) {
    exists i :: 0 <= i < |run| && Raises(run[i])
  }

  lemma FirstOccurs(run: seq<Step>, step: Step)
    requires run != []
    ensures Occurs(run, step) <==> run[0] == step || Occurs(run[1..], step)
    ensures SomeRaises(run) <==> Raises(run[0]) || SomeRaises(run[1..])
  {
    if i :| 0 <= i < |run[1..]| && run[1..][i] == step { assert run[i + 1] == step; }
    if i :| 0 <= i < |run[1..]| && Raises(run[1..][i]) { assert Raises(run[i + 1]); }
    if i :| 0 < i < |run| && run[i] == step { assert run[1..][i - 1] == step; }
    if i :| 0 < i < |run| && Raises(run[i]) { assert Raises(run[1..][i - 1]); }
  }

  lemma {:induction false} RunFatal(c: Config, s: Sys, run: seq<Step>)
    requires Inv(c, s) && IsRun(c, s, run)
    ensures var s' := After(c, s, run);
      && (s'.fatal || s'.fatalSeen <==> s.fatal || s.fatalSeen || SomeRaises(run))
      && (s'.fatalSeen <==> s.fatalSeen || Occurs(run, TakeFatal))
      && (s'.cancelled <==> s.cancelled || Occurs(run, TakeFatal) || Occurs(run, CancelOutside))
      && (s.fatal && !Occurs(run, TakeFatal) ==> s'.fatal)
    decreases |run|
  {
    if run != [] {
      StepFatal(c, s, run[0]);
      StepInv(c, s, run[0]);
      FirstOccurs(run, TakeFatal);
      FirstOccurs(run, CancelOutside);
      RunFatal(c, Apply(c, s, run[0]), run[1..]);
    }
  }

  /**
   Over every run: a fatal error is on its channel or was taken by the scheduler exactly if some worker
   raised one, and once there it stays until it is taken. The run is cancelled exactly if the scheduler
   took one or somebody outside cancelled it.
   */
  lemma FatalMeans(c: Config, s0: Sys, run: seq<Step>)
    requires c.g.WellFormed() && Init(c, s0) && IsRun(c, s0, run)
    ensures var s := After(c, s0, run);
      && (s.fatal || s.fatalSeen <==> SomeRaises(run))
      && (s.fatalSeen <==> Occurs(run, TakeFatal))
      && (s.cancelled <==> Occurs(run, TakeFatal) || Occurs(run, CancelOutside))
      && (s.fatalSeen ==> s.cancelled)
  {
    InitInv(c, s0);
    RunFatal(c, s0, run);
  }

  /** Only a failed task that is not to be ignored raises, and the task is left Failed. */
  lemma RaisedMeansFailed(c: Config, s: Sys, step: Step)
    requires Places(s) && Enabled(c, s, step) && Raises(step)
    ensures var t := s.actors[step.actor].task;
      t !in c.ignoreErrors && t in Apply(c, s, step).status && Apply(c, s, step).status[t] == Failed
  {
    assert HeldStatus(s, s.actors[step.actor]);
    CompleteStatus(c, s, step.actor, step.outcome, step.raises);
  }

  /** What was raised stays on the channel until it is taken. */
  lemma FatalStays(c: Config, s: Sys, run: seq<Step>)
    requires Reachable(c, s) && s.fatal && IsRun(c, s, run) && !Occurs(run, TakeFatal)
    ensures After(c, s, run).fatal
  {
    ReachableInv(c, s);
    RunFatal(c, s, run);
  }
}
