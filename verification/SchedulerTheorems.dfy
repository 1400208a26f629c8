/** What the invariant means for whole runs: wake-ups, dispatch safety and quiescence. */
module SchedulerTheorems {
  import opened Prelude
  import opened Graphs
  import opened Scheduler
  import opened SchedulerInvariant
  import opened SchedulerWakeups

  /** s is reached by some run over the graph of c. */
  ghost predicate Reachable(c: Config, s: Sys) {
    exists s0, run :: c.g.WellFormed() && Init(c, s0) && IsRun(c, s0, run) && s == After(c, s0, run)
  }

  lemma ReachableInv(c: Config, s: Sys)
    requires Reachable(c, s)
    ensures Inv(c, s)
  {
    var s0, run :| c.g.WellFormed() && Init(c, s0) && IsRun(c, s0, run) && s == After(c, s0, run);
    InitInv(c, s0);
    RunInv(c, s0, run);
  }

  lemma ReachNext(c: Config, s: Sys, step: Step)
    requires Reachable(c, s) && Enabled(c, s, step)
    ensures Reachable(c, Apply(c, s, step))
  {
    var s0, run :| c.g.WellFormed() && Init(c, s0) && IsRun(c, s0, run) && s == After(c, s0, run);
    RunAppend(c, s0, run, step);
    assert IsRun(c, s0, run + [step]);
  }

  // ---- Wake-ups ----

  predicate HasBothKinds(g: Graph, n: TaskId) {
    g.Deps(Stream, n) != {} && g.Deps(State, n) != {}
  }

  /**
   No lost wake-up. Once no actor is between a decrement and the end of its check of n, task n has
   been sent exactly if both its counters are zero: at most twice, and at most once unless it has
   both stream and state producers.
   */
  lemma NoLostWakeUp(c: Config, s: Sys, n: TaskId)
    requires Reachable(c, s) && n in c.g.nodes && Checking(s, n) == {}
    ensures Sent(s, n) >= 1 <==> s.BothZero(n)
    ensures Sent(s, n) <= if HasBothKinds(c.g, n) then 2 else 1
  {
    ReachableInv(c, s);
    assert Balanced(c, s, n);
    if Sent(s, n) >= 1 { assert n in s.sends; }
  }

  /** While checks are still running no more messages than that can have been sent. */
  lemma SendsAreBounded(c: Config, s: Sys, n: TaskId)
    requires Reachable(c, s) && n in c.g.nodes
    ensures Sent(s, n) + |Checking(s, n)| <= if HasBothKinds(c.g, n) then 2 else 1
    ensures !s.BothZero(n) ==> Sent(s, n) == 0
  {
    ReachableInv(c, s);
    assert Balanced(c, s, n);
    if Sent(s, n) >= 1 { assert n in s.sends; }
  }

  // ---- Dispatch safety ----

  /**
   A dispatched task has all its stream producers dispatched and all its state producers Completed
   or Skipped, no task is dispatched twice, and producers precede consumers in dispatch order.
   */
  lemma DispatchSafety(c: Config, s: Sys)
    requires Reachable(c, s)
    ensures NoDup(s.order) && Elements(s.order) == s.dispatched
    ensures forall n, p :: n in s.dispatched && p in c.g.Deps(Stream, n) ==> p in s.dispatched
    ensures forall n, p :: n in s.dispatched && p in c.g.Deps(State, n) ==> p in s.status && s.status[p].Succeeded()
    ensures forall i, j :: 0 <= i < |s.order| && 0 <= j < |s.order| && c.g.Edge(s.order[i], s.order[j]) ==> i < j
  {
    ReachableInv(c, s);
    forall k, n, p | n in s.dispatched && p in c.g.Deps(k, n) ensures Fired(s, k, p) {
      ZeroMeansMet(c, s, k, n, p);
    }
    forall n, p | n in s.dispatched && p in c.g.Deps(Stream, n) ensures p in s.dispatched {
      assert Fired(s, Stream, p);
    }
    forall n, p | n in s.dispatched && p in c.g.Deps(State, n) ensures p in s.status && s.status[p].Succeeded() {
      assert Fired(s, State, p);
    }
    forall i, j | 0 <= i < |s.order| && 0 <= j < |s.order| && c.g.Edge(s.order[i], s.order[j]) ensures i < j {
      assert s.order[i] in s.order[..j];
      var i' :| 0 <= i' < j && s.order[i'] == s.order[i];
      assert i' == i;
    }
  }

  /**
   Counters are never negative: each is the number of producers that have not signalled. When no
   actor is signalling, those are the producers not dispatched (stream) or not successful (state).
   */
  lemma CountersMeanUnmet(c: Config, s: Sys, k: Kind, n: TaskId)
    requires Reachable(c, s) && n in c.g.nodes
    ensures n in s.Left(k) && s.Left(k)[n] == |Waiting(c, s, k, n)| >= 0
    ensures (forall a :: 0 <= a < |s.actors| ==> !s.actors[a].Signalling?) ==>
      Waiting(c, s, k, n) == set p | p in c.g.Deps(k, n) && !Fired(s, k, p)
  {
    CountersExactAt(c, s, k, n);
    if forall a :: 0 <= a < |s.actors| ==> !s.actors[a].Signalling? {
      NoDebtsMeanFired(c, s, k, n);
    }
  }

  lemma CountersExactAt(c: Config, s: Sys, k: Kind, n: TaskId)
    requires Reachable(c, s) && n in c.g.nodes
    ensures SignalsExact(c, s) && n in s.Left(k) && s.Left(k)[n] == |Waiting(c, s, k, n)|
  {
    ReachableInv(c, s);
  }

  lemma NoDebtsMeanFired(c: Config, s: Sys, k: Kind, n: TaskId)
    requires SignalsExact(c, s) && forall a :: 0 <= a < |s.actors| ==> !s.actors[a].Signalling?
    ensures Waiting(c, s, k, n) == set p | p in c.g.Deps(k, n) && !Fired(s, k, p)
  {
  }

  // ---- Quiescence ----

  /** Nothing is Running, the ready channel is drained and no actor is still signalling. */
  ghost predicate Quiescent(s: Sys) {
    && s.ready == []
    && (forall t :: t in s.status ==> s.status[t] != Running)
    && (forall a :: 0 <= a < |s.actors| ==> !s.actors[a].Signalling?)
  }

  /** At quiescence every actor is at rest and the work queue is empty. */
  lemma QuiescentAtRest(c: Config, s: Sys)
    requires Reachable(c, s) && Quiescent(s)
    ensures s.queue == [] && forall a :: 0 <= a < |s.actors| ==> s.actors[a].Idle? || s.actors[a].Exited?
  {
    ReachableInv(c, s);
    EmptyOrNot(s.queue);
    forall a | 0 <= a < |s.actors| ensures s.actors[a].Idle? || s.actors[a].Exited? {
      assert HeldStatus(s, s.actors[a]);
    }
  }

  /** A Pending task at quiescence waits for a Pending producer, or by state for a Failed one. */
  lemma PendingWaits(c: Config, s: Sys, n: TaskId) returns (p: TaskId)
    requires Reachable(c, s) && Quiescent(s) && n in s.status && s.status[n] == Pending
    ensures p in s.status && c.g.Edge(p, n)
    ensures s.status[p] == Pending || (s.status[p] == Failed && p in c.g.Deps(State, n))
  {
    ReachableInv(c, s);
    assert n in c.g.nodes && n !in s.dispatched;
    CountersMeanUnmet(c, s, Stream, n);
    CountersMeanUnmet(c, s, State, n);
    assert Checking(s, n) == {};
    NoLostWakeUp(c, s, n);
    if s.streamLeft[n] != 0 {
      p :| p in Waiting(c, s, Stream, n);
      assert p !in s.dispatched && p in c.g.nodes;
    } else {
      p :| p in Waiting(c, s, State, n);
      assert !Fired(s, State, p) && p in c.g.nodes;
    }
  }

  /** A chain of dependencies from a Failed task, by a state edge, through Pending tasks to n. */
  ghost predicate BlockedBy(c: Config, s: Sys, chain: seq<TaskId>, n: TaskId) {
    && |chain| >= 2 && c.g.IsPath(chain) && chain[|chain| - 1] == n
    && (forall t :: t in chain ==> t in s.status) && chain[0] in s.status
    && s.status[chain[0]] == Failed && chain[0] in c.g.Deps(State, chain[1])
    && forall i :: 1 <= i < |chain| ==> s.status[chain[i]] == Pending
  }

  /** A blocked task blocks the Pending tasks that wait for it; a failed one those that wait for its state. */
  lemma BlockNext(c: Config, s: Sys, p: TaskId, n: TaskId)
    requires c.g.WellFormed() && s.status.Keys == c.g.nodes && n in s.status && s.status[n] == Pending
    requires c.g.Edge(p, n) && p in s.status
    requires (s.status[p] == Failed && p in c.g.Deps(State, n)) || exists chain :: BlockedBy(c, s, chain, p)
    ensures exists chain :: BlockedBy(c, s, chain, n)
  {
    if s.status[p] == Failed && p in c.g.Deps(State, n) {
      assert c.g.IsPath([p, n]);
      assert BlockedBy(c, s, [p, n], n);
    } else {
      var chain :| BlockedBy(c, s, chain, p);
      var longer := chain + [n];
      assert longer[0] == chain[0] && longer[1] == chain[1];
      forall i | 0 <= i < |longer| - 1 ensures c.g.Edge(longer[i], longer[i + 1]) {
        if i == |chain| - 1 { assert longer[i] == p && longer[i + 1] == n; }
      }
      assert BlockedBy(c, s, longer, n);
    }
  }

  /** In an acyclic graph every task still Pending at quiescence is blocked by a failed task. */
  lemma PendingIsBlocked(c: Config, s: Sys, n: TaskId) returns (chain: seq<TaskId>)
    requires Reachable(c, s) && Quiescent(s) && c.g.Acyclic()
    requires n in s.status && s.status[n] == Pending
    ensures BlockedBy(c, s, chain, n)
  {
    ReachableInv(c, s);
    var free := set t | t in s.status && s.status[t] == Pending && !exists chain :: BlockedBy(c, s, chain, t);
    if free != {} {
      var m := SourceExists(c.g, free);
      var p := PendingWaits(c, s, m);
      assert s.status[p] == Pending ==> p !in free;
      BlockNext(c, s, p, m);
    }
    assert n !in free;
    chain :| BlockedBy(c, s, chain, n);
  }

  /** If nothing failed, a quiescent run has every task Completed or Skipped. */
  lemma NoFailureMeansAllDone(c: Config, s: Sys)
    requires Reachable(c, s) && Quiescent(s) && c.g.Acyclic()
    requires forall t :: t in s.status ==> s.status[t] != Failed
    ensures s.status.Keys == c.g.nodes
    ensures forall t :: t in s.status ==> s.status[t].Succeeded()
  {
    ReachableInv(c, s);
    forall t | t in s.status ensures s.status[t].Succeeded() {
      if s.status[t] == Pending {
        var chain := PendingIsBlocked(c, s, t);
        assert false;
      }
    }
  }

  /** A non-empty acyclic graph has a task without dependencies, so the ready channel is seeded. */
  lemma SomethingIsReady(c: Config, s: Sys)
    requires c.g.WellFormed() && c.g.Acyclic() && c.g.nodes != {} && Init(c, s)
    ensures InitiallyReady(c.g) != {} && s.ready != []
  {
    var m := SourceExists(c.g, c.g.nodes);
    assert c.g.Deps(Stream, m) == {} by {
      if p :| p in c.g.Deps(Stream, m) { assert p in c.g.nodes && c.g.Edge(p, m); }
    }
    assert c.g.Deps(State, m) == {} by {
      if p :| p in c.g.Deps(State, m) { assert p in c.g.nodes && c.g.Edge(p, m); }
    }
    assert m in InitiallyReady(c.g);
    assert m in Elements(s.ready);
  }
}
