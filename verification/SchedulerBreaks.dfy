/** Which playbooks can have the ticker's early break cut their runs short. */
module SchedulerBreaks {
  import opened Prelude
  import opened Graphs
  import opened Scheduler
  import opened SchedulerInvariant
  import opened SchedulerSignals
  import opened SchedulerWakeups
  import opened SchedulerTheorems
  import opened SchedulerTermination
  import opened SchedulerProgress
  import opened SchedulerExits
  import opened Outcome

  ghost predicate HasStateEdges(g: Graph) {
    exists n :: n in g.nodes && g.Deps(State, n) != {}
  }

  // ---- Without state edges a Pending task means a ready one ----

  /** Workers and the context neither dispatch tasks nor move the scheduler. */
  lemma OtherStepKeeps(c: Config, s: Sys, step: Step)
    requires |s.actors| > 0 && Enabled(c, s, step) && IsOthers(step)
    ensures var s' := Apply(c, s, step); |s'.actors| > 0 && s'.actors[0] == s.actors[0] && s'.dispatched == s.dispatched
  {
    match step
    case Decrement(a, d) => DecrementMoves(c, s, a, d);
    case Complete(a, o, r) => CompleteKeeps(c, s, a, o, r);
    case _ =>
  }

  lemma CompleteKeeps(c: Config, s: Sys, a: nat, o: Status, r: bool)
    requires CanComplete(c, s, a, o, r)
    ensures var s' := ApplyComplete(c, s, a, o, r);
      |s'.actors| == |s.actors| && s'.actors[0] == s.actors[0] && s'.dispatched == s.dispatched
  {
  }

  lemma {:induction false} OthersKeep(c: Config, s: Sys, run: seq<Step>)
    requires Inv(c, s) && OthersRun(c, s, run)
    ensures var s' := After(c, s, run); |s'.actors| > 0 && s'.actors[0] == s.actors[0] && s'.dispatched == s.dispatched
    decreases |run|
  {
    if run != [] {
      assert IsOthers(run[0]);
      OtherStepKeeps(c, s, run[0]);
      StepInv(c, s, run[0]);
      forall i | 0 <= i < |run[1..]| ensures IsOthers(run[1..][i]) { assert run[1..][i] == run[i + 1]; }
      OthersKeep(c, Apply(c, s, run[0]), run[1..]);
    }
  }

  /** Only the scheduler signals over stream edges. */
  lemma SchedulerOwes(c: Config, s: Sys, a: nat, p: TaskId, n: TaskId)
    requires Shape(c, s) && a < |s.actors| && s.actors[0].Idle?
    ensures !Owes(s.actors[a], Stream, p, n)
  {
    assert ActorShape(c, a, s.actors[a]);
  }

  /** With the scheduler at its select, a task whose stream producers are dispatched has no stream dependency left. */
  lemma StreamsSignalled(c: Config, s: Sys, n: TaskId)
    requires Inv(c, s) && |s.actors| > 0 && s.actors[0].Idle? && n in c.g.nodes
    requires c.g.Deps(State, n) == {} && forall p :: p in c.g.Deps(Stream, n) ==> p in s.dispatched
    ensures s.BothZero(n)
  {
    forall p | p in c.g.Deps(Stream, n) ensures Signal(Stream, p, n) in s.signals {
      forall a | 0 <= a < |s.actors| ensures !Owes(s.actors[a], Stream, p, n) { SchedulerOwes(c, s, a, p, n); }
      assert Fired(s, Stream, p) && !StillToSignal(s, Stream, p, n);
    }
    assert Waiting(c, s, Stream, n) == {} && Waiting(c, s, State, n) == {};
  }

  lemma PendingMeansReady(c: Config, s: Sys)
    requires Inv(c, s) && c.g.Acyclic() && !HasStateEdges(c.g) && |s.actors| > 0 && s.actors[0].Idle? && SomePending(s)
    ensures !NoneRunnable(s)
  {
    var waiting := set t | t in s.status && s.status[t] == Pending;
    var t :| t in s.status && s.status[t] == Pending;
    assert t in waiting;
    var m := SourceExists(c.g, waiting);
    forall p | p in c.g.Deps(Stream, m) ensures p in s.dispatched { assert c.g.Edge(p, m) && p in c.g.nodes; }
    StreamsSignalled(c, s, m);
  }

  /** The early break never comes in a playbook in which no task waits for another's state. */
  lemma NoStateEdgesNoBreak(c: Config, s: Sys, first: seq<Step>, second: seq<Step>)
    requires Reachable(c, s) && c.g.Acyclic() && !HasStateEdges(c.g)
    ensures !TickerBreaks(c, s, first, second)
  {
    if TickerBreaks(c, s, first, second) {
      var s1 := After(c, s, first);
      ReachRun(c, s, first);
      ReachableInv(c, s);
      ReachableInv(c, s1);
      OthersKeep(c, s, first);
      OthersKeep(c, s1, second);
      ReachRun(c, s1, second);
      ReachableInv(c, After(c, s1, second));
      var t :| t in After(c, s1, second).status && After(c, s1, second).status[t] == Pending;
      assert t in s1.status && s1.status[t] == Pending;
      PendingMeansReady(c, s1);
    }
  }

  // ---- With state edges it can, if the work queue holds all tasks ----

  /** Only the scheduler has moved so far. */
  ghost predicate Untaken(s: Sys) {
    && |s.actors| > 0 && (forall a :: 0 < a < |s.actors| ==> s.actors[a].Idle?)
    && (forall t :: t in s.status ==> s.status[t] == Pending || s.status[t] == Running)
    && !s.cancelled && !s.fatal && !s.fatalSeen
  }

  predicate OfScheduler(step: Step) {
    match step
    case Receive => true
    case Decrement(a, _) => a == 0
    case Load(a) => a == 0
    case SendReady(a) => a == 0
    case FinishSignals(a) => a == 0
    case Enqueue => true
    case _ => false
  }

  lemma UntakenStep(c: Config, s: Sys, step: Step)
    requires Untaken(s) && Enabled(c, s, step) && OfScheduler(step)
    ensures Untaken(Apply(c, s, step))
  {
  }

  lemma UnfiredIsWaiting(c: Config, s: Sys, k: Kind, p: TaskId, n: TaskId)
    requires Reachable(c, s) && n in c.g.nodes && p in c.g.Deps(k, n) && !Fired(s, k, p)
    ensures p in Waiting(c, s, k, n)
  {
    CountersExactAt(c, s, k, n);
  }

  lemma DispatchedIsZero(c: Config, s: Sys, n: TaskId)
    requires Reachable(c, s) && n in s.dispatched
    ensures s.BothZero(n)
  {
    ReachableInv(c, s);
  }

  /** No task with a state producer has been sent, as none has ended. */
  lemma StateWaits(c: Config, s: Sys, n: TaskId)
    requires Reachable(c, s) && Untaken(s) && n in c.g.nodes && c.g.Deps(State, n) != {}
    ensures !s.BothZero(n) && n !in s.dispatched && Sent(s, n) == 0
  {
    var p :| p in c.g.Deps(State, n);
    UnfiredIsWaiting(c, s, State, p, n);
    CountersMeanUnmet(c, s, State, n);
    SendsAreBounded(c, s, n);
    if n in s.dispatched { DispatchedIsZero(c, s, n); }
  }

  lemma OnceEach(c: Config, s: Sys, d: TaskId, x: TaskId)
    requires Reachable(c, s) && Untaken(s) && d in c.g.nodes && s.BothZero(d) && Checking(s, d) != {}
    ensures Sent(s, x) + One(x == d) <= One(x in c.g.nodes)
  {
    if x in BothKinds(c.g) { StateWaits(c, s, x); }
    SendBudget(c, s, d, x);
  }

  lemma RoomToSend(c: Config, s: Sys)
    requires Reachable(c, s) && Untaken(s) && s.actors[0].Signalling? && s.actors[0].phase.Send?
    requires c.readyCap >= |c.g.nodes|
    ensures Enabled(c, s, SendReady(0))
  {
    var d := s.actors[0].phase.dep;
    SenderChecks(c, s, 0);
    SignallerShape(c, s);
    var m := multiset(s.sends) + multiset{d};
    forall x ensures m[x] <= One(x in c.g.nodes) + One(x in {}) { OnceEach(c, s, d, x); }
    MultisetBound(m, c.g.nodes, {});
    SendsInGraph(c, s);
  }

  lemma RoomInQueue(c: Config, s: Sys)
    requires Reachable(c, s) && Untaken(s) && s.actors[0].Enqueueing? && |c.g.nodes| <= 2 * c.workers
    ensures Enabled(c, s, Enqueue)
  {
    ReachableInv(c, s);
    var t := s.actors[0].task;
    assert ActorShape(c, 0, s.actors[0]) && HeldTask(s.actors[0]) == Some(t);
    QueueIsSmall(c, s, t);
  }

  lemma QueueIsSmall(c: Config, s: Sys, t: TaskId)
    requires QueueSound(s) && s.status.Keys == c.g.nodes && t in c.g.nodes && t !in s.queue
    ensures |s.queue| < |c.g.nodes|
  {
    NoDupLength(s.queue, c.g.nodes - {t});
  }

  /** The scheduler's next step, unless it rests at its select with nothing to receive. */
  lemma SchedulerMoves(c: Config, s: Sys) returns (step: Step)
    requires Reachable(c, s) && Untaken(s) && |c.g.nodes| <= 2 * c.workers && |c.g.nodes| <= c.readyCap
    requires !s.actors[0].Exited? && !(s.actors[0].Idle? && s.ready == [])
    ensures Enabled(c, s, step) && OfScheduler(step) && !Apply(c, s, step).actors[0].Exited?
  {
    match s.actors[0]
    case Idle => step := Receive;
    case Enqueueing(_) =>
      step := Enqueue;
      RoomInQueue(c, s);
    case Executing(_) => SchedulerPlace(c, s);
    case Signalling(_, _, _, Send(_)) =>
      step := SendReady(0);
      RoomToSend(c, s);
    case Signalling(_, _, _, _) => step := SignalStep(c, s);
  }

  lemma SignallerShape(c: Config, s: Sys)
    requires Reachable(c, s) && |s.actors| > 0 && s.actors[0].Signalling?
    ensures s.streamLeft.Keys == s.stateLeft.Keys == c.g.nodes && ActorShape(c, 0, s.actors[0])
    ensures PhaseSound(s, s.actors[0].phase)
  {
    ReachableInv(c, s);
  }

  lemma SignalStep(c: Config, s: Sys) returns (step: Step)
    requires Reachable(c, s) && |s.actors| > 0 && s.actors[0].Signalling? && !s.actors[0].phase.Send?
    ensures Enabled(c, s, step) && OfScheduler(step) && !Apply(c, s, step).actors[0].Exited?
  {
    SignallerShape(c, s);
    if s.actors[0].phase.Next? {
      if d :| d in s.actors[0].todo { step := Decrement(0, d); } else { step := FinishSignals(0); }
    } else {
      step := Load(0);
    }
  }

  /** The scheduler alone comes to rest. */
  lemma {:induction false} Settle(c: Config, s: Sys) returns (end: Sys)
    requires Reachable(c, s) && Untaken(s) && |c.g.nodes| <= 2 * c.workers && |c.g.nodes| <= c.readyCap
    requires !s.actors[0].Exited?
    ensures Reachable(c, end) && Untaken(end) && end.actors[0].Idle? && end.ready == []
    decreases Cost(c, s)
  {
    if s.actors[0].Idle? && s.ready == [] {
      end := s;
    } else {
      var step := SchedulerMoves(c, s);
      ReachNext(c, s, step);
      UntakenStep(c, s, step);
      ReachableInv(c, s);
      StepCost(c, s, step);
      end := Settle(c, Apply(c, s, step));
    }
  }

  lemma RestNotReady(c: Config, s: Sys, t: TaskId)
    requires Reachable(c, s) && Untaken(s) && s.actors[0].Idle? && s.ready == []
    requires t in s.status && s.status[t] == Pending
    ensures !s.BothZero(t)
  {
    ReachableInv(c, s);
    assert Checking(s, t) == {};
    NoLostWakeUp(c, s, t);
    assert Sent(s, t) >= 1 ==> t in s.sends;
  }

  /**
   At rest every task that waits for nothing but streams is dispatched, and the others are Pending: the
   ticker breaks.
   */
  lemma RestBreaks(c: Config, s: Sys)
    requires Reachable(c, s) && Untaken(s) && s.actors[0].Idle? && s.ready == [] && HasStateEdges(c.g)
    ensures TickerBreaks(c, s, [], [])
  {
    ReachableInv(c, s);
    var n :| n in c.g.nodes && c.g.Deps(State, n) != {};
    StateWaits(c, s, n);
    assert s.status[n] == Pending;
    forall t | t in s.status && s.status[t] == Pending ensures !s.BothZero(t) { RestNotReady(c, s, t); }
    assert After(c, s, []) == s && OthersRun(c, s, []);
  }

  function FirstState(c: Config, ready: seq<TaskId>): Sys {
    Sys(map n | n in c.g.nodes :: Pending,
        map n | n in c.g.nodes :: |c.g.Deps(Stream, n)|,
        map n | n in c.g.nodes :: |c.g.Deps(State, n)|,
        {}, ready, [], seq(c.workers + 1, _ => Idle), false, false, false, {}, ready, [])
  }

  lemma FirstIsReachable(c: Config, ready: seq<TaskId>)
    requires c.g.WellFormed() && NoDup(ready) && Elements(ready) == InitiallyReady(c.g)
    ensures Reachable(c, FirstState(c, ready))
  {
    var s := FirstState(c, ready);
    assert Init(c, s) && IsRun(c, s, []) && After(c, s, []) == s;
  }

  /** A break at a reachable state, with no task failed and nothing cancelled when the scheduler leaves. */
  ghost predicate CleanBreak(c: Config, s: Sys, first: seq<Step>, second: seq<Step>) {
    && Reachable(c, s) && TickerBreaks(c, s, first, second)
    && var end := After(c, After(c, s, first), second);
       !SomeFailed(end.status) && !end.cancelled && !end.fatal && !end.fatalSeen
  }

  /**
   Some run of the playbook in which nothing fails and nothing is cancelled is cut short by the early
   break if and only if some task waits for another's state.
   */
  lemma CutShortIff(c: Config)
    requires c.g.WellFormed() && c.g.Acyclic() && |c.g.nodes| <= 2 * c.workers && |c.g.nodes| <= c.readyCap
    ensures HasStateEdges(c.g) <==> exists s, first, second :: CleanBreak(c, s, first, second)
  {
    if HasStateEdges(c.g) {
      var ready := AnyOrder(InitiallyReady(c.g));
      FirstIsReachable(c, ready);
      var s := Settle(c, FirstState(c, ready));
      RestBreaks(c, s);
      assert After(c, s, []) == s;
      assert CleanBreak(c, s, [], []);
    } else {
      forall s, first, second ensures !CleanBreak(c, s, first, second) {
        if Reachable(c, s) { NoStateEdgesNoBreak(c, s, first, second); }
      }
    }
  }
}
