/** Streaming tasks are dispatched as the scheduler dispatches them. */
module StreamDispatch {
  import opened Prelude
  import opened Graphs
  import opened Scheduler
  import opened SchedulerInvariant
  import opened SchedulerTheorems
  import opened Dag
  import opened Paths
  import Flows = StreamFlow
  import StreamPair

  /** The flow has the tasks and the dependencies of the graph. */
  ghost predicate SameGraph(f: Flows.Flow, g: Graph) {
    && Elements(f.tasks) == g.nodes
    && (forall t, p :: p in g.Deps(Stream, t) <==> exists e :: f.IsInput(t, e) && f.edges[e] == p)
    && forall t, x :: x in g.Deps(State, t) <==> f.Waits(t, x)
  }

  /** The same tasks are dispatched, and the same have Completed or were Skipped. */
  ghost predicate SameProgress(u: Flows.Sys, s: Sys) {
    && u.mode.Keys == s.status.Keys
    && (forall t :: t in u.mode ==> (Flows.Started(u, t) <==> t in s.dispatched))
    && forall t :: t in u.mode ==> (Flows.HasEnded(u, t) <==> s.status[t].Succeeded())
  }

  /** What the scheduler dispatches the flow can dispatch. */
  lemma DispatchIsAllowed(c: Config, s: Sys, f: Flows.Flow, u: Flows.Sys, t: TaskId)
    requires Reachable(c, s) && SameGraph(f, c.g) && SameProgress(u, s)
    requires Enabled(c, s, Receive) && t in Apply(c, s, Receive).dispatched && t !in s.dispatched
    ensures Flows.Enabled(f, u, Flows.Dispatch(t))
  {
    var s' := Apply(c, s, Receive);
    ReachNext(c, s, Receive);
    ReachableInv(c, s);
    DispatchSafety(c, s');
    forall e | f.IsInput(t, e) ensures Flows.Started(u, f.edges[e]) { NotItself(c, s', Stream, t, f.edges[e]); }
    forall x | f.Waits(t, x) ensures Flows.HasEnded(u, x) { NotItself(c, s', State, t, x); }
  }

  lemma NotItself(c: Config, s: Sys, k: Kind, t: TaskId, p: TaskId)
    requires Reachable(c, s) && t in s.dispatched && p in c.g.Deps(k, t)
    ensures p != t && Fired(s, k, p)
  {
    DispatchSafety(c, s);
    assert t in Elements(s.order);
    var i :| 0 <= i < |s.order| && s.order[i] == t;
    assert c.g.Edge(p, t);
  }

  lemma NoneWaited(c: Config, s: Sys, f: Flows.Flow, u: Flows.Sys, t: TaskId)
    requires c.g.WellFormed() && s.status.Keys == c.g.nodes && SameGraph(f, c.g) && SameProgress(u, s)
    ensures Flows.CanStart(f, u, t) <==>
      && (forall p :: p in c.g.Deps(Stream, t) ==> Fired(s, Stream, p))
      && forall p :: p in c.g.Deps(State, t) ==> Fired(s, State, p)
  {
    if forall p :: p in c.g.Deps(Stream, t) ==> Fired(s, Stream, p) {
      forall e | f.IsInput(t, e) ensures Flows.Started(u, f.edges[e]) {
        assert f.edges[e] in c.g.Deps(Stream, t) && f.edges[e] in c.g.nodes && Fired(s, Stream, f.edges[e]);
      }
    }
    if forall p :: p in c.g.Deps(State, t) ==> Fired(s, State, p) {
      forall x | f.Waits(t, x) ensures Flows.HasEnded(u, x) { assert Fired(s, State, x); }
    }
  }

  lemma ZeroMeansFired(c: Config, s: Sys, t: TaskId)
    requires Reachable(c, s) && t in c.g.nodes && forall a :: 0 <= a < |s.actors| ==> !s.actors[a].Signalling?
    ensures s.BothZero(t) <==>
      && (forall p :: p in c.g.Deps(Stream, t) ==> Fired(s, Stream, p))
      && forall p :: p in c.g.Deps(State, t) ==> Fired(s, State, p)
  {
    CountersMeanUnmet(c, s, Stream, t);
    CountersMeanUnmet(c, s, State, t);
    NoneLeft(c, s, Stream, t);
    NoneLeft(c, s, State, t);
  }

  lemma NoneLeft(c: Config, s: Sys, k: Kind, t: TaskId)
    requires Waiting(c, s, k, t) == set p | p in c.g.Deps(k, t) && !Fired(s, k, p)
    ensures |Waiting(c, s, k, t)| == 0 <==> forall p :: p in c.g.Deps(k, t) ==> Fired(s, k, p)
  {
    if forall p :: p in c.g.Deps(k, t) ==> Fired(s, k, p) { assert Waiting(c, s, k, t) == {}; }
    if p :| p in c.g.Deps(k, t) && !Fired(s, k, p) { assert p in Waiting(c, s, k, t); }
  }

  /** Once nobody is signalling, the flow can dispatch exactly the tasks that wait on the ready channel. */
  lemma DispatchIsSent(c: Config, s: Sys, f: Flows.Flow, u: Flows.Sys, t: TaskId)
    requires Reachable(c, s) && SameGraph(f, c.g) && SameProgress(u, s) && t in c.g.nodes
    requires forall a :: 0 <= a < |s.actors| ==> !s.actors[a].Signalling?
    ensures Flows.Enabled(f, u, Flows.Dispatch(t)) <==> t in s.ready && t !in s.dispatched
  {
    ReachableInv(c, s);
    NoneWaited(c, s, f, u, t);
    ZeroMeansFired(c, s, t);
    assert Checking(s, t) == {};
    NoLostWakeUp(c, s, t);
    assert Sent(s, t) >= 1 <==> t in s.sends;
  }

  // ---- A playbook whose consumer also waits for its producer's state ----

  /** p registers its result; c streams from p and reads the result. */
  function GatedTasks(): seq<Task> {
    [Task("p", "p", "r", [], []), Task("c", "c", "", ["p"], ["r"])]
  }

  function GatedGraph(): Graph {
    Graph({"p", "c"}, map["p" := {}, "c" := {"p"}], map["p" := {}, "c" := {"p"}])
  }

  lemma GatedIsAcyclic()
    ensures GatedGraph().Acyclic()
  {
    forall p ensures !GatedGraph().IsCycle(p) {
      if |p| >= 2 && GatedGraph().IsPath(p) {
        assert GatedGraph().Edge(p[0], p[1]) && p[0] == "p" && GatedGraph().Edge(p[|p| - 2], p[|p| - 1]);
      }
    }
  }

  lemma GatedIndexes()
    ensures TasksById(GatedTasks()) == map["p" := GatedTasks()[0], "c" := GatedTasks()[1]]
    ensures NameToId(GatedTasks()) == map["p" := "p", "c" := "c"] && RegisteredToId(GatedTasks()) == map["r" := "p"]
  {
    var tasks := GatedTasks();
    IndexStep(tasks, 0);
    IndexStep(tasks, 1);
    assert tasks[..0] == [] && tasks[..2] == tasks;
  }

  lemma GatedProducers(names: map<string, TaskId>)
    requires names == map["p" := "p", "c" := "c"]
    ensures StreamProducers(names, ["p"]) == {"p"} && AllDefined(names, ["p"])
    ensures StateProducers(names, map["r" := "p"], ["r"], "c") == {"p"}
    ensures StreamProducers(names, []) == {} && AllDefined(names, [])
    ensures StateProducers(names, map["r" := "p"], [], "p") == {}
  {
    assert "p" in ["p"];
    AllDefinedMeans(names, ["p"], 1);
    assert !HasPrefix("r", STATUS_PREFIX);
    assert ProducerOf(names, map["r" := "p"], "r") == Some("p");
  }

  /** Graph building accepts it, and the gated pair has its dependencies. */
  lemma GatedIsAccepted(n: nat, g: StreamPair.Setting)
    requires g.gated
    ensures Accepted(GatedTasks()) && SameGraph(StreamPair.Pair(n, g), DependencyGraph(GatedTasks()))
  {
    GatedIndexes();
    GatedProducers(NameToId(GatedTasks()));
    var h := DependencyGraph(GatedTasks());
    assert h.nodes == GatedGraph().nodes;
    forall id | id in h.nodes ensures h.stream[id] == GatedGraph().stream[id] && h.state[id] == GatedGraph().state[id] {
      assert id == "p" || id == "c";
    }
    assert h.stream == GatedGraph().stream && h.state == GatedGraph().state;
    GatedIsAcyclic();
    assert h == GatedGraph();
    GatedIsSame(n, g);
  }

  lemma GatedIsSame(n: nat, g: StreamPair.Setting)
    requires g.gated
    ensures SameGraph(StreamPair.Pair(n, g), GatedGraph())
  {
    var f := StreamPair.Pair(n, g);
    assert f.IsInput("c", StreamPair.LINK);
    forall t, p ensures p in GatedGraph().Deps(Stream, t) <==> exists e :: f.IsInput(t, e) && f.edges[e] == p {}
  }
}
