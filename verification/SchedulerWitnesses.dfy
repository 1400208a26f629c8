/** Two small playbooks whose runs end otherwise than one might expect. */
module SchedulerWitnesses {
  import opened Prelude
  import opened Graphs
  import opened Scheduler
  import opened SchedulerTheorems
  import opened SchedulerExits
  import opened SchedulerBreaks
  import opened Outcome
  import opened Dag
  import opened Paths

  /** a is the one task that waits for nothing, and b the one that waits for a, for its state. */
  ghost predicate StartsWith(c: Config, a: TaskId, b: TaskId) {
    && c.g.WellFormed() && c.workers >= 1 && c.readyCap >= 1 && a != b
    && InitiallyReady(c.g) == {a} && c.g.RequiredBy(a) == {b} && a !in c.g.Deps(Stream, b)
  }

  function QueuedState(c: Config, a: TaskId): Sys {
    var s := FirstState(c, [a]);
    s.(status := s.status[a := Running], dispatched := {a}, ready := [], queue := [a], order := [a])
  }

  /** a is dispatched and waits in the work queue; everybody is idle. */
  lemma QueuedIsReachable(c: Config, a: TaskId, b: TaskId)
    requires StartsWith(c, a, b)
    ensures Reachable(c, QueuedState(c, a)) && a in c.g.nodes && b in c.g.nodes
  {
    assert a in InitiallyReady(c.g) && b in c.g.RequiredBy(a);
    assert Elements([a]) == {a};
    FirstIsReachable(c, [a]);
    var s0 := FirstState(c, [a]);
    ReachNext(c, s0, Receive);
    var s1 := ApplyReceive(c, s0);
    assert s1.actors[0] == Signalling(Stream, a, {b}, Next);
    ReachNext(c, s1, Decrement(0, b));
    var s2 := ApplyDecrement(c, s1, 0, b);
    assert s2.actors[0] == Signalling(Stream, a, {}, Next);
    ReachNext(c, s2, FinishSignals(0));
    var s3 := ApplyFinish(s2, 0);
    ReachNext(c, s3, Enqueue);
    assert Apply(c, s3, Enqueue).actors == QueuedState(c, a).actors;
    assert Apply(c, s3, Enqueue) == QueuedState(c, a);
  }

  lemma OthersNotReady(c: Config, a: TaskId, n: TaskId)
    requires c.g.WellFormed() && InitiallyReady(c.g) == {a} && n in c.g.nodes && n != a
    ensures !FirstState(c, [a]).BothZero(n)
  {
    assert n !in InitiallyReady(c.g);
  }

  // ---- A break that abandons work ----

  /** b waits for the state of a and for nothing else, and no other task is there. */
  function Pair(): Graph {
    Graph({"a", "b"}, map["a" := {}, "b" := {}], map["a" := {}, "b" := {"a"}])
  }

  function PairConfig(): Config {
    Config(Pair(), 1, 3, {})
  }

  lemma PairIsAcyclic()
    ensures Pair().Acyclic()
  {
    forall p ensures !Pair().IsCycle(p) {
      if |p| >= 2 && Pair().IsPath(p) {
        assert Pair().Edge(p[0], p[1]) && p[0] == "a" && Pair().Edge(p[|p| - 2], p[|p| - 1]);
      }
    }
  }

  /** a registers its result, and b reads it. */
  function PairTasks(): seq<Task> {
    [Task("a", "a", "r", [], []), Task("b", "b", "", [], ["r"])]
  }

  lemma PairIndexes()
    ensures TasksById(PairTasks()) == map["a" := PairTasks()[0], "b" := PairTasks()[1]]
    ensures NameToId(PairTasks()) == map["a" := "a", "b" := "b"] && RegisteredToId(PairTasks()) == map["r" := "a"]
  {
    var tasks := PairTasks();
    IndexStep(tasks, 0);
    IndexStep(tasks, 1);
    assert tasks[..0] == [] && tasks[..2] == tasks;
  }

  lemma Registered(names: map<string, TaskId>)
    ensures StateProducers(names, map["r" := "a"], ["r"], "b") == {"a"}
  {
    assert !HasPrefix("r", STATUS_PREFIX);
    assert ProducerOf(names, map["r" := "a"], "r") == Some("a");
  }

  lemma NoInputs(names: map<string, TaskId>)
    ensures StreamProducers(names, []) == {} && AllDefined(names, [])
    ensures forall registered, id :: StateProducers(names, registered, [], id) == {}
  {
  }

  /** Graph building accepts the playbook, and its graph is the pair. */
  lemma PairIsAccepted()
    ensures Accepted(PairTasks()) && DependencyGraph(PairTasks()) == Pair()
  {
    PairIndexes();
    Registered(NameToId(PairTasks()));
    var g := DependencyGraph(PairTasks());
    assert g.nodes == Pair().nodes;
    NoInputs(NameToId(PairTasks()));
    forall id | id in g.nodes ensures g.stream[id] == Pair().stream[id] && g.state[id] == Pair().state[id] {
      assert id == "a" || id == "b";
    }
    assert g.stream == Pair().stream && g.state == Pair().state;
    PairIsAcyclic();
  }

  lemma PairStarts()
    ensures StartsWith(PairConfig(), "a", "b") && Pair().Deps(State, "b") == {"a"}
  {
    var g := Pair();
    forall n ensures n in InitiallyReady(g) <==> n == "a" {}
    forall n ensures n in g.RequiredBy("a") <==> n == "b" {}
    assert InitiallyReady(g) == {"a"} && g.RequiredBy("a") == {"b"};
  }

  /** The scheduler breaks off while a waits in the work queue. */
  lemma BreakWhileQueued()
    ensures var s := QueuedState(PairConfig(), "a");
      Reachable(PairConfig(), s) && TickerBreaks(PairConfig(), s, [], []) && !SomeFailed(s.status) && s.queue != []
  {
    var c := PairConfig();
    PairStarts();
    QueuedIsReachable(c, "a", "b");
    var s := QueuedState(c, "a");
    assert After(c, s, []) == s && OthersRun(c, s, []);
    assert s.status["b"] == Pending;
    forall t | t in s.status && s.status[t] == Pending ensures !s.BothZero(t) {
      OthersNotReady(c, "a", t);
    }
  }

  /** Nobody cancelled and nothing failed fatally. */
  predicate Calm(s: Sys) {
    !s.cancelled && !s.fatal && !s.fatalSeen
  }

  /** Some run leads from one state to the other. */
  ghost predicate Leads(c: Config, from: Sys, to: Sys) {
    exists run :: IsRun(c, from, run) && After(c, from, run) == to
  }

  lemma LeadsNowhere(c: Config, s: Sys)
    ensures Leads(c, s, s)
  {
    assert IsRun(c, s, []) && After(c, s, []) == s;
  }

  lemma LeadsNext(c: Config, from: Sys, to: Sys, step: Step)
    requires Leads(c, from, to) && Enabled(c, to, step)
    ensures Leads(c, from, Apply(c, to, step))
  {
    var run :| IsRun(c, from, run) && After(c, from, run) == to;
    RunAppend(c, from, run, step);
  }

  lemma LeadsReach(c: Config, from: Sys, to: Sys)
    requires Reachable(c, from) && Leads(c, from, to)
    ensures Reachable(c, to)
  {
    var run :| IsRun(c, from, run) && After(c, from, run) == to;
    ReachRun(c, from, run);
  }

  /** The only worker takes the only queued task and ends it. */
  lemma WorkerRuns(c: Config, from: Sys, s: Sys, t: TaskId, outcome: Status) returns (end: Sys)
    requires Leads(c, from, s) && |s.actors| == 2 && s.actors[1].Idle? && s.queue == [t] && t in s.status
    requires s.status[t] == Running
    requires outcome.Terminal()
    ensures Leads(c, from, end)
    ensures end == s.(status := s.status[t := outcome], queue := [],
      actors := [s.actors[0], if outcome.Succeeded() then Signalling(State, t, c.g.RequiredBy(t), Next) else Idle])
  {
    LeadsNext(c, from, s, Take(1));
    var s1 := ApplyTake(s, 1);
    assert s1 == s.(actors := [s.actors[0], Executing(t)], queue := []);
    LeadsNext(c, from, s1, Complete(1, outcome, false));
    end := ApplyComplete(c, s1, 1, outcome, false);
    assert end.actors == [s.actors[0], if outcome.Succeeded() then Signalling(State, t, c.g.RequiredBy(t), Next)
      else Idle];
  }

  lemma LateDecrement(c: Config, from: Sys, s: Sys) returns (s': Sys)
    requires c == PairConfig() && Leads(c, from, s) && s.actors == [Exited, Signalling(State, "a", {"b"}, Next)]
    requires "b" in s.stateLeft && "b" in s.streamLeft && s.stateLeft["b"] == 1 && s.streamLeft["b"] == 0
    ensures Leads(c, from, s') && s'.BothZero("b") && s'.status == s.status && s'.ready == s.ready
    ensures (Calm(s) ==> Calm(s')) && s'.actors == [Exited, Signalling(State, "a", {}, LoadStream("b"))]
  {
    PairStarts();
    LeadsNext(c, from, s, Decrement(1, "b"));
    s' := ApplyDecrement(c, s, 1, "b");
    assert {"b"} - {"b"} == {};
    assert s'.actors[1] == Signalling(State, "a", {}, LoadStream("b"));
  }

  /** It sends b, which nobody receives any more. */
  lemma LateSend(c: Config, from: Sys, s: Sys) returns (end: Sys)
    requires c == PairConfig() && Leads(c, from, s) && s.actors == [Exited, Signalling(State, "a", {}, LoadStream("b"))]
    requires s.BothZero("b") && s.ready == []
    ensures Leads(c, from, end) && end.BothZero("b") && end.status == s.status && end.ready == ["b"]
    ensures (Calm(s) ==> Calm(end)) && end.actors == [Exited, Idle]
  {
    LeadsNext(c, from, s, Load(1));
    var s1 := ApplyLoad(c, s, 1);
    LeadsNext(c, from, s1, Load(1));
    var s2 := ApplyLoad(c, s1, 1);
    LeadsNext(c, from, s2, SendReady(1));
    var s3 := ApplySend(c, s2, 1);
    assert s3.actors == [Exited, Signalling(State, "a", {}, Next)];
    LeadsNext(c, from, s3, FinishSignals(1));
    end := ApplyFinish(s3, 1);
  }

  lemma PairFirst()
    ensures var s := FirstState(PairConfig(), ["a"]);
      && s.status == map["a" := Pending, "b" := Pending] && s.streamLeft == map["a" := 0, "b" := 0]
      && s.stateLeft == map["a" := 0, "b" := 1]
      && s.actors == [Idle, Idle]
  {
    PairStarts();
  }

  lemma PairQueued()
    ensures var s := QueuedState(PairConfig(), "a");
      && s.status == map["a" := Running, "b" := Pending] && s.actors == [Idle, Idle] && s.queue == ["a"]
      && s.ready == [] && Calm(s)
      && s.streamLeft == map["a" := 0, "b" := 0] && s.stateLeft == map["a" := 0, "b" := 1]
  {
    PairFirst();
  }

  /** The break itself: the scheduler leaves its loop while a is queued. */
  lemma BreakOff(c: Config, s: Sys)
    requires s.actors == [Idle, Idle]
    ensures Enabled(c, s, SchedulerStop) && Apply(c, s, SchedulerStop) == s.(actors := [Exited, Idle])
  {
  }

  /** After the break a worker still takes a and completes it. */
  lemma AfterBreak(from: Sys) returns (s: Sys)
    requires from == QueuedState(PairConfig(), "a").(actors := [Exited, Idle])
    ensures Leads(PairConfig(), from, s) && s.actors == [Exited, Signalling(State, "a", {"b"}, Next)]
    ensures s.status == map["a" := Completed, "b" := Pending] && Calm(s) && s.ready == []
    ensures s.streamLeft == map["a" := 0, "b" := 0] && s.stateLeft == map["a" := 0, "b" := 1]
  {
    PairStarts();
    PairQueued();
    LeadsNowhere(PairConfig(), from);
    s := WorkerRuns(PairConfig(), from, from, "a", Completed);
  }

  lemma PairReported(status: map<TaskId, Status>, stateLeft: map<TaskId, int>)
    requires status == map["a" := Completed, "b" := Pending] && "b" in stateLeft && stateLeft["b"] == 0
    ensures !SomeFailed(status) && OutcomeIs(Some(UnexpectedPending), None, status, stateLeft)
  {
    assert !WaitsForState(stateLeft, "b");
  }

  /** The end of a run that the early break in the state broken cut short. */
  ghost predicate EndsAfterBreak(c: Config, broken: Sys, end: Sys) {
    && Reachable(c, broken) && TickerBreaks(c, broken, [], []) && Enabled(c, broken, SchedulerStop)
    && Leads(c, Apply(c, broken, SchedulerStop), end)
  }

  /**
   An accepted playbook in which nothing fails and nothing is cancelled, and yet the early break
   abandons a task that gets ready to run: the run is then reported to have ended with unexpected
   pending tasks.
   */
  lemma EarlyBreakLosesWork() returns (broken: Sys, end: Sys)
    ensures Pair().Acyclic() && EndsAfterBreak(PairConfig(), broken, end) && Reachable(PairConfig(), end)
    ensures end.actors == [Exited, Idle] && end.ready == ["b"] && Calm(end) && !SomeFailed(end.status)
    ensures "b" in end.status && end.status["b"] == Pending && end.BothZero("b")
    ensures OutcomeIs(Some(UnexpectedPending), None, end.status, end.stateLeft)
  {
    var c := PairConfig();
    PairIsAcyclic();
    broken := QueuedState(c, "a");
    BreakWhileQueued();
    PairQueued();
    BreakOff(c, broken);
    var from := Apply(c, broken, SchedulerStop);
    var s := AfterBreak(from);
    s := LateDecrement(c, from, s);
    end := LateSend(c, from, s);
    ReachNext(c, broken, SchedulerStop);
    LeadsReach(c, from, end);
    PairReported(end.status, end.stateLeft);
  }

  // ---- A failure reported as a deadlock ----

  /** b waits for the state of a, and c streams from b; a failure of a is ignored. */
  function Chain(): Graph {
    Graph({"a", "b", "c"}, map["a" := {}, "b" := {}, "c" := {"b"}], map["a" := {}, "b" := {"a"}, "c" := {}])
  }

  function ChainConfig(): Config {
    Config(Chain(), 1, 4, {"a"})
  }

  lemma ChainIsAcyclic()
    ensures Chain().Acyclic()
  {
    forall p ensures !Chain().IsCycle(p) {
      if |p| >= 2 && Chain().IsPath(p) {
        assert Chain().Edge(p[0], p[1]) && Chain().Edge(p[|p| - 2], p[|p| - 1]);
        if |p| > 2 { assert Chain().Edge(p[1], p[2]); }
        if |p| > 3 { assert Chain().Edge(p[2], p[3]); }
      }
    }
  }

  /** a registers its result, b reads it and streams to c. */
  function ChainTasks(): seq<Task> {
    [Task("a", "a", "r", [], []), Task("b", "b", "", [], ["r"]), Task("c", "c", "", ["b"], [])]
  }

  lemma ChainIndexes()
    ensures TasksById(ChainTasks()) == map["a" := ChainTasks()[0], "b" := ChainTasks()[1], "c" := ChainTasks()[2]]
    ensures NameToId(ChainTasks()) == map["a" := "a", "b" := "b", "c" := "c"]
    ensures RegisteredToId(ChainTasks()) == map["r" := "a"]
  {
    var tasks := ChainTasks();
    IndexStep(tasks, 0);
    IndexStep(tasks, 1);
    IndexStep(tasks, 2);
    assert tasks[..0] == [] && tasks[..3] == tasks;
  }

  lemma Streamed(names: map<string, TaskId>)
    requires "b" in names && names["b"] == "b"
    ensures StreamProducers(names, ["b"]) == {"b"} && AllDefined(names, ["b"])
  {
    assert "b" in ["b"];
    AllDefinedMeans(names, ["b"], 1);
  }

  /** Graph building accepts the playbook, and its graph is the chain. */
  lemma ChainIsAccepted()
    ensures Accepted(ChainTasks()) && DependencyGraph(ChainTasks()) == Chain()
  {
    ChainIndexes();
    Registered(NameToId(ChainTasks()));
    Streamed(NameToId(ChainTasks()));
    var g := DependencyGraph(ChainTasks());
    assert g.nodes == Chain().nodes;
    NoInputs(NameToId(ChainTasks()));
    forall id | id in g.nodes ensures g.stream[id] == Chain().stream[id] && g.state[id] == Chain().state[id] {
      assert id == "a" || id == "b" || id == "c";
    }
    assert g.stream == Chain().stream && g.state == Chain().state;
    ChainIsAcyclic();
  }

  lemma ChainStarts()
    ensures StartsWith(ChainConfig(), "a", "b")
  {
    var g := Chain();
    forall n ensures n in InitiallyReady(g) <==> n == "a" {}
    forall n ensures n in g.RequiredBy("a") <==> n == "b" {}
    assert InitiallyReady(g) == {"a"} && g.RequiredBy("a") == {"b"};
  }

  lemma ChainQueued()
    ensures var s := QueuedState(ChainConfig(), "a");
      && s.status == map["a" := Running, "b" := Pending, "c" := Pending] && s.actors == [Idle, Idle]
      && s.queue == ["a"] && s.ready == []
      && Calm(s) && "c" in s.stateLeft && s.stateLeft["c"] == 0
  {
  }

  lemma FailsAlone(c: Config, s: Sys) returns (end: Sys)
    requires Reachable(c, s) && "a" in s.status && s.status["a"] == Running
    requires s.actors == [Idle, Idle] && s.queue == ["a"]
    ensures Reachable(c, end)
    ensures end == s.(status := s.status["a" := Failed], queue := [])
  {
    LeadsNowhere(c, s);
    end := WorkerRuns(c, s, s, "a", Failed);
    LeadsReach(c, s, end);
    assert end.actors == s.actors;
  }

  lemma ChainFails() returns (end: Sys)
    ensures Reachable(ChainConfig(), end) && end.actors == [Idle, Idle] && Calm(end) && end.ready == []
    ensures end.status == map["a" := Failed, "b" := Pending, "c" := Pending]
    ensures "c" in end.stateLeft && end.stateLeft["c"] == 0
  {
    ChainStarts();
    ChainQueued();
    QueuedIsReachable(ChainConfig(), "a", "b");
    end := FailsAlone(ChainConfig(), QueuedState(ChainConfig(), "a"));
  }

  lemma ChainRests(s: Sys)
    requires s.ready == [] && s.actors == [Idle, Idle] && s.status == map["a" := Failed, "b" := Pending, "c" := Pending]
    ensures Quiescent(s)
  {
  }

  lemma ChainBlocked(status: map<TaskId, Status>, stateLeft: map<TaskId, int>)
    requires "c" in status && status["c"] == Pending && "c" in stateLeft && stateLeft["c"] == 0
    ensures OutcomeIs(Some(UnexpectedPending), None, status, stateLeft)
  {
    assert !WaitsForState(stateLeft, "c");
  }

  /**
   A quiescent end of an accepted playbook, with nothing cancelled and no fatal error: one task failed,
   the others are blocked by it as they should be, and the outcome is the error for a deadlock.
   */
  lemma FailureReportedAsDeadlock() returns (end: Sys)
    ensures Chain().Acyclic() && Reachable(ChainConfig(), end) && Quiescent(end) && Calm(end)
    ensures end.status == map["a" := Failed, "b" := Pending, "c" := Pending]
    ensures OutcomeIs(Some(UnexpectedPending), None, end.status, end.stateLeft)
  {
    ChainIsAcyclic();
    end := ChainFails();
    ChainRests(end);
    ChainBlocked(end.status, end.stateLeft);
  }
}
