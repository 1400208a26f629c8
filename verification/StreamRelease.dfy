/** When the producers of streams are released: the wait groups over a whole run of the scheduler. */
module StreamRelease {
  import opened Prelude
  import opened Graphs
  import opened Scheduler
  import opened SchedulerInvariant
  import opened SchedulerTheorems
  import opened SchedulerWakeups
  import opened ChannelTopology

  /**
   The tasks that workers ended in a run, in that order. Each that was executed signals its producers; one
   that a worker gave up, because the context had ended before it could start, does not.
   */
  ghost function Returns(c: Config, s: Sys, run: seq<Step>): seq<TaskId>
    requires IsRun(c, s, run)
    decreases |run|
  {
    if run == [] then []
    else (if run[0].Complete? then [s.actors[run[0].actor].task] else []) + Returns(c, Apply(c, s, run[0]), run[1..])
  }

  predicate Ended(s: Sys, t: TaskId) {
    t in s.status && s.status[t].Terminal()
  }

  lemma EndedStays(c: Config, s: Sys, step: Step, t: TaskId)
    requires Enabled(c, s, step) && Ended(s, t)
    ensures Ended(Apply(c, s, step), t)
  {
    if step.Decrement? { DecrementKeeps(c, s, step.actor, step.dep); }
    if step.Complete? { CompleteSets(c, s, step.actor, step.outcome, step.raises); }
  }

  lemma DecrementKeeps(c: Config, s: Sys, a: nat, d: TaskId)
    requires CanDecrement(s, a, d)
    ensures ApplyDecrement(c, s, a, d).status == s.status
  {
  }

  lemma CompleteSets(c: Config, s: Sys, a: nat, o: Status, r: bool)
    requires CanComplete(c, s, a, o, r)
    ensures var t := s.actors[a].task;
      ApplyComplete(c, s, a, o, r).status == if Ended(s, t) then s.status else s.status[t := o]
  {
  }

  /** A worker that ends a task held one that was Running. */
  lemma CompleteEnds(c: Config, s: Sys, step: Step)
    requires Places(s) && Enabled(c, s, step) && step.Complete?
    ensures var t := s.actors[step.actor].task;
      t in s.status && !Ended(s, t) && Ended(Apply(c, s, step), t)
  {
    assert HeldStatus(s, s.actors[step.actor]);
    CompleteSets(c, s, step.actor, step.outcome, step.raises);
  }

  /** No task is executed to the end twice. */
  lemma {:induction false} ReturnsAreDistinct(c: Config, s: Sys, run: seq<Step>)
    requires Inv(c, s) && IsRun(c, s, run)
    ensures NoDup(Returns(c, s, run))
    ensures forall t :: t in Returns(c, s, run) ==> t in s.status && !Ended(s, t)
    decreases |run|
  {
    if run != [] {
      var s1 := Apply(c, s, run[0]);
      StepInv(c, s, run[0]);
      ReturnsAreDistinct(c, s1, run[1..]);
      var rest := Returns(c, s1, run[1..]);
      forall t | t in rest ensures t in s.status && !Ended(s, t) {
        if Ended(s, t) { EndedStays(c, s, run[0], t); }
        assert t in s1.status && s1.status.Keys == s.status.Keys;
      }
      if run[0].Complete? {
        CompleteEnds(c, s, run[0]);
        NoDupAppend([s.actors[run[0].actor].task], rest);
      } else {
        assert [] + rest == rest;
      }
    }
  }

  /** The scheduler hands every task it dispatches to the workers. */
  ghost predicate HandsOver(run: seq<Step>) {
    run == [] || (!run[0].EnqueueCancelled? && HandsOver(run[1..]))
  }

  /** Unless the scheduler failed tasks itself on cancellation, the tasks that end are those that workers ended. */
  lemma {:induction false} ReturnsAreEnded(c: Config, s: Sys, run: seq<Step>)
    requires Inv(c, s) && IsRun(c, s, run) && HandsOver(run)
    ensures forall t :: Ended(After(c, s, run), t) <==> Ended(s, t) || t in Returns(c, s, run)
    decreases |run|
  {
    if run != [] {
      var s1 := Apply(c, s, run[0]);
      StepInv(c, s, run[0]);
      ReturnsAreEnded(c, s1, run[1..]);
      forall t ensures Ended(s1, t) <==> Ended(s, t) || (run[0].Complete? && t == s.actors[run[0].actor].task) {
        EndStep(c, s, run[0], t);
      }
    }
  }

  lemma EndStep(c: Config, s: Sys, step: Step, t: TaskId)
    requires Places(s) && Enabled(c, s, step) && !step.EnqueueCancelled?
    ensures Ended(Apply(c, s, step), t) <==> Ended(s, t) || (step.Complete? && t == s.actors[step.actor].task)
  {
    match step
    case Complete(a, o, r) =>
      CompleteEnds(c, s, step);
      CompleteSets(c, s, a, o, r);
    case Decrement(a, d) => DecrementKeeps(c, s, a, d);
    case _ =>
  }

  /** At quiescence every task that was dispatched has returned. */
  lemma QuiescentReturns(c: Config, s0: Sys, run: seq<Step>)
    requires c.g.WellFormed() && Init(c, s0) && IsRun(c, s0, run) && HandsOver(run)
    requires Quiescent(After(c, s0, run))
    ensures Elements(Returns(c, s0, run)) == After(c, s0, run).dispatched
  {
    var s := After(c, s0, run);
    InitInv(c, s0);
    RunInv(c, s0, run);
    DispatchFacts(c, s);
    ReturnsAreEnded(c, s0, run);
    RestingAreReturned(c, s0, s, Returns(c, s0, run));
  }

  lemma RestingAreReturned(c: Config, s0: Sys, s: Sys, ended: seq<TaskId>)
    requires s0.status == map n | n in c.g.nodes :: Pending
    requires StatusTracksDispatch(c, s) && s.status.Keys == c.g.nodes && s.dispatched <= c.g.nodes
    requires forall n :: n in s.status ==> s.status[n] != Running
    requires forall t :: Ended(s, t) <==> Ended(s0, t) || t in ended
    ensures Elements(ended) == s.dispatched
  {
    forall t ensures t in ended <==> t in s.dispatched {
      assert !Ended(s0, t);
      assert Ended(s, t) <==> t in s.dispatched;
    }
  }

  lemma DispatchFacts(c: Config, s: Sys)
    requires Inv(c, s)
    ensures StatusTracksDispatch(c, s) && s.status.Keys == c.g.nodes && s.dispatched <= c.g.nodes
  {
  }

  /** Every consumer that has returned signals its producers, in the order of their returns. */
  method PlayReturns(cm: ChannelManager, ended: seq<TaskId>)
    requires cm.Valid() && NoDup(ended) && forall t :: t in ended ==> t !in cm.returned
    modifies cm`returned, cm.producerWaitGroups.Values
    ensures cm.Valid() && cm.returned == old(cm.returned) + Elements(ended)
    ensures cm.edges == old(cm.edges) && cm.producerWaitGroups == old(cm.producerWaitGroups)
  {
    for i := 0 to |ended|
      invariant cm.Valid() && cm.returned == old(cm.returned) + Elements(ended[..i])
    {
      assert ended[..i + 1] == ended[..i] + [ended[i]];
      assert ended[i] in ended;
      cm.SignalProducers(ended[i]);
    }
    assert ended[..|ended|] == ended;
  }

  /**
   The wait groups after any run of the scheduler, executed being the tasks that workers executed to the
   end: no count is negative, and a producer is released exactly if each of its consumers is among them.
   */
  method ReleaseProducers(cm: ChannelManager, executed: seq<TaskId>, ghost c: Config, ghost s0: Sys,
                          ghost run: seq<Step>)
    requires cm.Valid() && cm.returned == {}
    requires c.g.WellFormed() && Init(c, s0) && IsRun(c, s0, run) && multiset(executed) <= multiset(Returns(c, s0, run))
    modifies cm`returned, cm.producerWaitGroups.Values
    ensures cm.Valid() && cm.edges == old(cm.edges) && cm.producerWaitGroups == old(cm.producerWaitGroups)
    ensures Released(cm.edges, cm.producerWaitGroups, executed)
  {
    InitInv(c, s0);
    ReturnsAreDistinct(c, s0, run);
    NoDupPart(executed, Returns(c, s0, run));
    PlayReturns(cm, executed);
    AllReleased(cm.edges, cm.producerWaitGroups, cm.returned, executed);
  }

  ghost predicate Released(edges: Edges, groups: map<TaskId, WaitGroup>, ended: seq<TaskId>)
    reads groups.Values
  {
    forall p :: p in groups ==>
      groups[p].count >= 0 && (groups[p].count == 0 <==> forall e :: e in EdgesTo(edges, p) ==> e.consumer in ended)
  }

  lemma AllReleased(edges: Edges, groups: map<TaskId, WaitGroup>, returned: set<TaskId>, ended: seq<TaskId>)
    requires CountsOk(edges, groups, returned) && returned == Elements(ended)
    ensures Released(edges, groups, ended)
  {
    forall p | p in groups
      ensures groups[p].count >= 0
      ensures (groups[p].count == 0 <==> forall e :: e in EdgesTo(edges, p) ==> e.consumer in ended)
    {
      WaitEndsWithLastConsumer(edges, groups, returned, p);
      assert forall t :: t in returned <==> t in ended;
    }
  }
}
