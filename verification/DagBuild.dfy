/** The depth-first cycle check over the finished graph, sound and complete for every visiting order. */
module CycleCheck {
  import opened Graphs
  import opened Dag

  /** Nothing leaves s along an edge. */
  ghost predicate Closed(g: Graph, s: set<TaskId>) {
    forall a, b :: a in s && b in g.nodes && g.Edge(a, b) ==> b in s
  }

  /** No cycle starts in s. */
  ghost predicate CycleFree(g: Graph, s: set<TaskId>) {
    forall p :: g.IsCycle(p) ==> p[0] !in s
  }

  lemma {:induction false} PathStaysInside(g: Graph, s: set<TaskId>, p: seq<TaskId>)
    requires Closed(g, s) && g.IsPath(p) && p[0] in s
    ensures p[|p| - 1] in s
  {
    if |p| > 1 {
      assert g.Edge(p[0], p[1]) && p[1] in p;
      var rest := p[1..];
      forall i | 0 <= i < |rest| - 1 ensures g.Edge(rest[i], rest[i + 1]) { assert g.Edge(p[i + 1], p[i + 2]); }
      PathStaysInside(g, s, rest);
    }
  }

  /** A task whose consumers all lie in a closed cycle-free set that it is not part of is on no cycle itself. */
  lemma Finish(g: Graph, s: set<TaskId>, n: TaskId)
    requires Closed(g, s) && CycleFree(g, s) && n !in s
    requires forall b :: b in g.nodes && g.Edge(n, b) ==> b in s
    ensures Closed(g, s + {n}) && CycleFree(g, s + {n})
  {
    forall p | g.IsCycle(p) ensures p[0] != n {
      if p[0] == n {
        assert g.Edge(p[0], p[1]) && p[1] in p;
        var rest := p[1..];
        forall i | 0 <= i < |rest| - 1 ensures g.Edge(rest[i], rest[i + 1]) { assert g.Edge(p[i + 1], p[i + 2]); }
        PathStaysInside(g, s, rest);
        assert false;
      }
    }
  }

  lemma NoStartMeansAcyclic(g: Graph)
    requires CycleFree(g, g.nodes)
    ensures g.Acyclic()
  {
  }

  /** The two maps shared by all calls of the search. */
  class CycleSearch {
    var path: map<TaskId, bool>
    var visited: map<TaskId, bool>

    constructor ()
      ensures OnPath() == {} && Visited() == {}
    {
      path, visited := map[], map[];
    }

    function OnPath(): set<TaskId>
      reads this
    {
      set id | id in path && path[id]
    }

    function Visited(): set<TaskId>
      reads this
    {
      set id | id in visited && visited[id]
    }

    /** The tasks visited and left again are closed under edges and on no cycle. */
    ghost predicate Sound(g: Graph)
      reads this
    {
      && OnPath() <= Visited() <= g.nodes
      && Closed(g, Visited() - OnPath()) && CycleFree(g, Visited() - OnPath())
    }

    method Enter(ghost g: Graph, id: TaskId)
      requires id in g.nodes && Sound(g) && id !in Visited()
      requires forall p :: p in OnPath() ==> g.Reach(p, id)
      modifies this
      ensures Sound(g) && OnPath() == old(OnPath()) + {id} && Visited() == old(Visited()) + {id}
      ensures forall p :: p in OnPath() ==> g.Reach(p, id)
    {
      path := path[id := true];
      visited := visited[id := true];
      assert g.IsPath([id]) && g.Reach(id, id);
      assert OnPath() == old(OnPath()) + {id} && Visited() == old(Visited()) + {id};
      assert Visited() - OnPath() == old(Visited() - OnPath());
    }

    /** All consumers of id have been visited and left. */
    method Leave(ghost g: Graph, id: TaskId, ghost before: set<TaskId>)
      requires Sound(g) && id in g.nodes && id !in before && OnPath() == before + {id}
      requires forall b :: b in g.nodes && g.Edge(id, b) ==> b in Visited() - OnPath()
      modifies this`path
      ensures Sound(g) && OnPath() == before && Visited() == old(Visited())
    {
      path := path[id := false];
      Finish(g, Visited() - (before + {id}), id);
      assert OnPath() == before;
      assert Visited() - OnPath() == (Visited() - (before + {id})) + {id};
    }

    /** Finds a cycle, or visits id and leaves the path as it was. */
    method HasCycleDFS(dag: TaskGraph, ghost g: Graph, id: TaskId) returns (found: bool)
      requires dag.Valid() && g == dag.View() && id in g.nodes && Sound(g) && id !in Visited()
      requires forall p :: p in OnPath() ==> g.Reach(p, id)
      modifies this
      ensures found ==> !g.Acyclic()
      ensures !found ==> Sound(g) && OnPath() == old(OnPath()) && old(Visited()) + {id} <= Visited()
      decreases g.nodes - Visited()
    {
      ghost var before := OnPath();
      Enter(g, id);
      var todo := dag.requiredBy[id];
      assert todo == g.RequiredBy(id);
      while todo != {}
        invariant todo <= g.RequiredBy(id)
        invariant Sound(g) && OnPath() == before + {id} && old(Visited()) + {id} <= Visited()
        invariant forall b :: b in g.RequiredBy(id) && b !in todo ==> b in Visited() - OnPath()
        decreases todo
      {
        var dependent :| dependent in todo;
        if dependent in path && path[dependent] {
          assert dependent in OnPath();
          ReachStep(g, dependent, id, dependent);
          return true;
        }
        if !(dependent in visited && visited[dependent]) {
          forall p | p in OnPath() ensures g.Reach(p, dependent) { ReachStep(g, p, id, dependent); }
          found := HasCycleDFS(dag, g, dependent);
          if found {
            return;
          }
        }
        todo := todo - {dependent};
      }
      Leave(g, id, before);
      found := false;
    }
  }

  /** True exactly when the graph has a cycle, whatever order tasks and consumers are visited in. */
  method DetectCycle(dag: TaskGraph) returns (cyclic: bool)
    requires dag.Valid()
    ensures cyclic <==> !dag.View().Acyclic()
  {
    ghost var g := dag.View();
    var search := new CycleSearch();
    var todo := dag.nodes.Keys;
    while todo != {}
      invariant todo <= g.nodes && search.Sound(g) && search.OnPath() == {}
      invariant g.nodes - todo <= search.Visited()
      decreases todo
    {
      var id :| id in todo;
      if !(id in search.visited && search.visited[id]) {
        var found := search.HasCycleDFS(dag, g, id);
        if found {
          return true;
        }
      }
      todo := todo - {id};
    }
    assert search.Visited() - search.OnPath() == g.nodes;
    NoStartMeansAcyclic(g);
    cyclic := false;
  }
}

/** Building the graph of a playbook as a whole. */
module DagBuild {
  import opened Prelude
  import opened Graphs
  import opened Dag
  import opened CycleCheck
  import opened Scheduler

  lemma {:induction false} TasksGiveNodes(tasks: seq<Task>)
    requires tasks != []
    ensures TasksById(tasks) != map[]
  {
    assert tasks[|tasks| - 1].id in TasksById(tasks);
  }

  /** An accepted playbook that has tasks has one that can start, so scheduling never begins without work. */
  lemma AcceptedHasWork(tasks: seq<Task>)
    requires tasks != [] && DependencyGraph(tasks).WellFormed() && DependencyGraph(tasks).Acyclic()
    ensures InitiallyReady(DependencyGraph(tasks)) != {}
  {
    TasksGiveNodes(tasks);
    var g := DependencyGraph(tasks);
    var m := SourceExists(g, g.nodes);
    NoProducers(g, m);
  }

  lemma NoProducers(g: Graph, m: TaskId)
    requires g.WellFormed() && g.IsSource(g.nodes, m)
    ensures m in InitiallyReady(g)
  {
    assert g.Deps(Stream, m) == {} by {
      if p :| p in g.Deps(Stream, m) { assert p in g.nodes && g.Edge(p, m); }
    }
    assert g.Deps(State, m) == {} by {
      if p :| p in g.Deps(State, m) { assert p in g.nodes && g.Edge(p, m); }
    }
  }

  lemma BuiltIsTarget(g: Graph, target: Graph)
    requires Built(g, target, {}) && g.stream.Keys == g.state.Keys == g.nodes
    requires target.stream.Keys == target.state.Keys == target.nodes
    ensures g == target
  {
    assert g.stream == target.stream && g.state == target.state;
  }

  /** Passes 1 and 2: the nodes and their edges. */
  method LinkTasks(tasks: seq<Task>) returns (dag: TaskGraph, err: BuildError)
    ensures err == if HasMissingId(tasks) then MissingId else if HasUndefinedInput(tasks) then UndefinedInput
      else NoError
    ensures fresh(dag)
    ensures err == NoError ==> dag.Valid() && dag.View() == DependencyGraph(tasks)
  {
    dag := new TaskGraph();
    err := dag.CreateNodes(tasks);
    if err == NoError {
      IdsAreTasks(tasks);
      dag.NoEdgesValid();
      err := dag.AddEdges(DependencyGraph(tasks));
      if err == NoError {
        BuiltIsTarget(dag.View(), DependencyGraph(tasks));
      }
    }
  }

  /** Graph, counters and ready list of a playbook, or the first reason to refuse it. */
  method BuildDag(tasks: seq<Task>) returns (dag: TaskGraph, ready: seq<TaskId>, err: BuildError)
    ensures err ==
      if HasMissingId(tasks) then MissingId
      else if HasUndefinedInput(tasks) then UndefinedInput
      else if !DependencyGraph(tasks).Acyclic() then CycleDetected
      else NoError
    ensures err == NoError <==> Accepted(tasks)
    ensures err == NoError ==>
      && dag.Valid() && dag.View() == DependencyGraph(tasks) && dag.CountersSet(dag.nodes.Keys)
      && NoDup(ready) && Elements(ready) == InitiallyReady(DependencyGraph(tasks))
      && (tasks != [] ==> ready != [])
  {
    ready := [];
    dag, err := LinkTasks(tasks);
    if err == NoError {
      ready := dag.InitCounters();
      var cyclic := DetectCycle(dag);
      if cyclic {
        err := CycleDetected;
      } else {
        assert Elements(ready) == InitiallyReady(dag.View());
        if tasks != [] {
          AcceptedHasWork(tasks);
        }
      }
    }
  }
}
