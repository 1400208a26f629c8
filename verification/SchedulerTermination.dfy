/** Every run is finite, and a run that can take no further step has finished its work. */
module SchedulerTermination {
  import opened Prelude
  import opened Graphs
  import opened Scheduler
  import opened SchedulerInvariant
  import opened SchedulerSteps
  import opened SchedulerWakeups

  // ---- A bound on the number of steps ----

  /** How many steps an actor's current work can still cost, with n tasks in the graph. */
  function PhaseCost(ph: Phase): nat {
    match ph
    case Next => 0
    case LoadStream(_) => 4
    case LoadState(_) => 3
    case Send(_) => 2
  }

  function ExecuteCost(n: nat): nat { 5 * n + 4 }

  function EnqueueCost(n: nat): nat { ExecuteCost(n) + 2 }

  function DispatchCost(n: nat): nat { 5 * n + EnqueueCost(n) + 1 }

  function ActorCost(n: nat, pc: Pc): nat {
    match pc
    case Idle => 1
    case Signalling(k, _, todo, ph) => 5 * |todo| + PhaseCost(ph) + (if k.Stream? then EnqueueCost(n) + 1 else 2)
    case Enqueueing(_) => EnqueueCost(n)
    case Executing(_) => ExecuteCost(n)
    case Exited => 0
  }

  function ActorsCost(n: nat, actors: seq<Pc>): nat {
    if actors == [] then 0 else ActorCost(n, actors[0]) + ActorsCost(n, actors[1..])
  }

  lemma {:induction false} ActorsCostUpdate(n: nat, actors: seq<Pc>, a: nat, pc: Pc)
    requires a < |actors|
    ensures ActorsCost(n, actors[a := pc]) == ActorsCost(n, actors) - ActorCost(n, actors[a]) + ActorCost(n, pc)
  {
    if a == 0 {
      assert actors[a := pc][1..] == actors[1..];
    } else {
      assert actors[a := pc][1..] == actors[1..][a - 1 := pc];
      ActorsCostUpdate(n, actors[1..], a - 1, pc);
    }
  }

  /** w added m times: the cost of m things of cost w. */
  function Times(w: nat, m: nat): nat {
    if m == 0 then 0 else w + Times(w, m - 1)
  }

  lemma {:induction false} TimesIsProduct(w: nat, m: nat)
    ensures Times(w, m) == w * m
  {
    if m > 0 { TimesIsProduct(w, m - 1); assert w * m == w * (m - 1) + w; }
  }

  /** Pending tasks weigh most, then queued and running tasks, then signals, checks and messages. */
  function Cost(c: Config, s: Sys): nat {
    var n := |c.g.nodes|;
    Times(DispatchCost(n), |c.g.nodes - s.dispatched|) + |s.ready| + Times(ExecuteCost(n), |s.queue|)
    + ActorsCost(n, s.actors) + (if s.fatal then 1 else 0) + (if s.cancelled then 0 else 1)
  }

  lemma ActorCostDrops(c: Config, s: Sys, s': Sys, a: nat)
    requires a < |s.actors| == |s'.actors| && s'.actors == s.actors[a := s'.actors[a]]
    requires s'.dispatched == s.dispatched && s'.queue == s.queue && s'.cancelled == s.cancelled
    requires var n := |c.g.nodes|;
      ActorCost(n, s'.actors[a]) + |s'.ready| + (if s'.fatal then 1 else 0)
        < ActorCost(n, s.actors[a]) + |s.ready| + (if s.fatal then 1 else 0)
    ensures Cost(c, s') < Cost(c, s)
  {
    ActorsCostUpdate(|c.g.nodes|, s.actors, a, s'.actors[a]);
  }

  lemma RequiredByCard(g: Graph, t: TaskId)
    ensures |g.RequiredBy(t)| <= |g.nodes|
  {
    SubsetCard(g.RequiredBy(t), g.nodes);
  }

  lemma PendingDrops(g: Graph, dispatched: set<TaskId>, t: TaskId, w: nat)
    requires t in g.nodes && t !in dispatched
    ensures Times(w, |g.nodes - dispatched|) == w + Times(w, |g.nodes - (dispatched + {t})|)
  {
    assert g.nodes - dispatched == (g.nodes - (dispatched + {t})) + {t};
  }

  lemma ReceiveCost(c: Config, s: Sys)
    requires s.status.Keys == c.g.nodes && CanReceive(s)
    ensures Cost(c, ApplyReceive(c, s)) < Cost(c, s)
  {
    var s' := ApplyReceive(c, s);
    var n := |c.g.nodes|;
    if s'.dispatched != s.dispatched {
      var t := s.ready[0];
      RequiredByCard(c.g, t);
      ActorsCostUpdate(n, s.actors, 0, s'.actors[0]);
      PendingDrops(c.g, s.dispatched, t, DispatchCost(n));
    }
  }

  lemma DecrementCost(c: Config, s: Sys, a: nat, d: TaskId)
    requires CanDecrement(s, a, d)
    ensures Cost(c, ApplyDecrement(c, s, a, d)) < Cost(c, s)
  {
    var s' := ApplyDecrement(c, s, a, d);
    assert |s.actors[a].todo - {d}| == |s.actors[a].todo| - 1;
    ActorCostDrops(c, s, s', a);
  }

  lemma CompleteCost(c: Config, s: Sys, a: nat, o: Status, r: bool)
    requires CanComplete(c, s, a, o, r)
    ensures Cost(c, ApplyComplete(c, s, a, o, r)) < Cost(c, s)
  {
    RequiredByCard(c.g, s.actors[a].task);
    ActorCostDrops(c, s, ApplyComplete(c, s, a, o, r), a);
  }

  lemma EnqueueCostDrops(c: Config, s: Sys)
    requires Enabled(c, s, Enqueue)
    ensures Cost(c, Apply(c, s, Enqueue)) < Cost(c, s)
  {
  }

  lemma TakeCost(c: Config, s: Sys, a: nat)
    requires CanTake(s, a)
    ensures Cost(c, ApplyTake(s, a)) < Cost(c, s)
  {
    var n := |c.g.nodes|;
    ActorsCostUpdate(n, s.actors, a, Executing(s.queue[0]));
  }

  lemma CheckCost(c: Config, s: Sys, a: nat)
    ensures CanLoad(s, a) ==> Cost(c, ApplyLoad(c, s, a)) < Cost(c, s)
    ensures CanSend(c, s, a) ==> Cost(c, ApplySend(c, s, a)) < Cost(c, s)
  {
    if CanLoad(s, a) { ActorCostDrops(c, s, ApplyLoad(c, s, a), a); }
    if CanSend(c, s, a) { ActorCostDrops(c, s, ApplySend(c, s, a), a); }
  }

  lemma FinishCost(c: Config, s: Sys, a: nat)
    requires Shape(c, s) && CanFinish(s, a)
    ensures Cost(c, ApplyFinish(s, a)) < Cost(c, s)
  {
    assert ActorShape(c, a, s.actors[a]);
    ActorCostDrops(c, s, ApplyFinish(s, a), a);
  }

  lemma ExitCost(c: Config, s: Sys, step: Step)
    requires Enabled(c, s, step) && (step.EnqueueCancelled? || step.WorkerExit? || step.SchedulerStop?)
    ensures Cost(c, Apply(c, s, step)) < Cost(c, s)
  {
    ActorCostDrops(c, s, Apply(c, s, step), Actor(step));
  }

  /** Every step lowers the cost. */
  lemma StepCost(c: Config, s: Sys, step: Step)
    requires Shape(c, s) && Enabled(c, s, step)
    ensures Cost(c, Apply(c, s, step)) < Cost(c, s)
  {
    match step
    case Receive => ReceiveCost(c, s);
    case Decrement(a, d) => DecrementCost(c, s, a, d);
    case Load(a) => CheckCost(c, s, a);
    case SendReady(a) => CheckCost(c, s, a);
    case FinishSignals(a) => FinishCost(c, s, a);
    case Enqueue => EnqueueCostDrops(c, s);
    case Take(a) => TakeCost(c, s, a);
    case Complete(a, o, r) => CompleteCost(c, s, a, o, r);
    case TakeFatal =>
    case CancelOutside =>
    case _ => ExitCost(c, s, step);
  }

  /** No run is longer than the cost of the state it starts from. */
  lemma {:induction false} RunsAreBounded(c: Config, s: Sys, run: seq<Step>)
    requires Inv(c, s) && IsRun(c, s, run)
    ensures |run| + Cost(c, After(c, s, run)) <= Cost(c, s)
    decreases |run|
  {
    if run != [] {
      StepInv(c, s, run[0]);
      StepCost(c, s, run[0]);
      RunsAreBounded(c, Apply(c, s, run[0]), run[1..]);
    }
  }

  lemma {:induction false} IdleCost(n: nat, actors: seq<Pc>)
    requires forall a :: 0 <= a < |actors| ==> actors[a].Idle?
    ensures ActorsCost(n, actors) == |actors|
  {
    if actors != [] { IdleCost(n, actors[1..]); }
  }

  lemma InitCost(c: Config, s: Sys)
    requires Init(c, s)
    ensures Cost(c, s) <= Times(DispatchCost(|c.g.nodes|), |c.g.nodes|) + |c.g.nodes| + c.workers + 2
  {
    IdleCost(|c.g.nodes|, s.actors);
    assert c.g.nodes - s.dispatched == c.g.nodes;
    forall n | n in s.ready ensures n in c.g.nodes { assert n in Elements(s.ready); }
    NoDupLength(s.ready, c.g.nodes);
  }

  lemma RunsCostAtMost(c: Config, s: Sys, run: seq<Step>)
    requires c.g.WellFormed() && Init(c, s) && IsRun(c, s, run)
    ensures |run| <= Times(DispatchCost(|c.g.nodes|), |c.g.nodes|) + |c.g.nodes| + c.workers + 2
  {
    assert |run| <= Cost(c, s) by {
      InitInv(c, s);
      RunsAreBounded(c, s, run);
    }
    InitCost(c, s);
  }

  /** A bound in the size of the playbook and of the worker pool alone. */
  lemma RunLength(c: Config, s: Sys, run: seq<Step>, n: nat)
    requires c.g.WellFormed() && Init(c, s) && IsRun(c, s, run) && n == |c.g.nodes|
    ensures |run| <= 10 * n * n + 8 * n + c.workers + 2
  {
    RunsCostAtMost(c, s, run);
    TimesIsProduct(DispatchCost(n), n);
    assert DispatchCost(n) * n == 10 * n * n + 7 * n;
  }
}
