/** Building the dependency graph of a playbook and checking it for cycles. */
module Dag {
  import opened Prelude
  import opened Graphs
  import opened Paths

  /** What graph building reads of a task; variables are the paths its templates refer to. */
  datatype Task = Task(id: TaskId, name: string, register: string, streamInputs: seq<string>, variables: seq<string>)

  const STATUS_PREFIX := "_gxo.tasks."

  // ---- The graph a playbook means ----

  /** The task that ends up in the graph under each id; of two with one id, the later. */
  function TasksById(tasks: seq<Task>): map<TaskId, Task> {
    if tasks == [] then map[] else TasksById(tasks[..|tasks| - 1])[tasks[|tasks| - 1].id := tasks[|tasks| - 1]]
  }

  function NameToId(tasks: seq<Task>): map<string, TaskId> {
    if tasks == [] then map[]
    else
      var before, last := NameToId(tasks[..|tasks| - 1]), tasks[|tasks| - 1];
      if last.name != "" then before[last.name := last.id] else before
  }

  function RegisteredToId(tasks: seq<Task>): map<string, TaskId> {
    if tasks == [] then map[]
    else
      var before, last := RegisteredToId(tasks[..|tasks| - 1]), tasks[|tasks| - 1];
      if last.register != "" then before[last.register := last.id] else before
  }

  /** What one more task adds to the three indexes. */
  lemma IndexStep(tasks: seq<Task>, i: nat)
    requires i < |tasks|
    ensures var before, after, t := tasks[..i], tasks[..i + 1], tasks[i];
      && TasksById(after) == TasksById(before)[t.id := t]
      && NameToId(after) == (if t.name != "" then NameToId(before)[t.name := t.id] else NameToId(before))
      && RegisteredToId(after) == if t.register != "" then RegisteredToId(before)[t.register := t.id]
           else RegisteredToId(before)
  {
    assert tasks[..i + 1][..i] == tasks[..i];
  }

  /** The producer a variable path stands for: a task by its status path, or a registered variable by its whole path. */
  function ProducerOf(names: map<string, TaskId>, registered: map<string, TaskId>, path: string): Option<TaskId> {
    if HasPrefix(path, STATUS_PREFIX) then
      var parts := Split(path, '.');
      if |parts| == 4 && parts[2] in names then Some(names[parts[2]]) else None
    else if path in registered then Some(registered[path]) else None
  }

  predicate IsStateProducer(names: map<string, TaskId>, registered: map<string, TaskId>, path: string,
                            consumer: TaskId) {
    var p := ProducerOf(names, registered, path);
    p.Some? && p.value != "" && p.value != consumer
  }

  function StreamProducers(names: map<string, TaskId>, inputs: seq<string>): set<TaskId> {
    set name | name in inputs && name in names :: names[name]
  }

  function StateProducers(names: map<string, TaskId>, registered: map<string, TaskId>, paths: seq<string>,
                          consumer: TaskId): set<TaskId> {
    set path | path in paths && IsStateProducer(names, registered, path, consumer) ::
      ProducerOf(names, registered, path).value
  }

  /** A playbook's graph: streams from the tasks named as inputs, state from the tasks its templates mention. */
  function DependencyGraph(tasks: seq<Task>): Graph {
    GraphOf(TasksById(tasks), NameToId(tasks), RegisteredToId(tasks))
  }

  function GraphOf(byId: map<TaskId, Task>, names: map<string, TaskId>, registered: map<string, TaskId>): Graph {
    Graph(byId.Keys,
          map id | id in byId.Keys :: StreamProducers(names, byId[id].streamInputs),
          map id | id in byId.Keys :: StateProducers(names, registered, byId[id].variables, id))
  }

  /** The first n inputs name tasks. */
  predicate DefinedUpTo(names: map<string, TaskId>, inputs: seq<string>, n: nat)
    requires n <= |inputs|
  {
    n == 0 || (inputs[n - 1] in names && DefinedUpTo(names, inputs, n - 1))
  }

  predicate AllDefined(names: map<string, TaskId>, inputs: seq<string>) {
    DefinedUpTo(names, inputs, |inputs|)
  }

  lemma {:induction false} AllDefinedMeans(names: map<string, TaskId>, inputs: seq<string>, n: nat)
    requires n <= |inputs|
    ensures DefinedUpTo(names, inputs, n) <==> forall i :: 0 <= i < n ==> inputs[i] in names
  {
    if n > 0 { AllDefinedMeans(names, inputs, n - 1); }
  }

  /** Every task outside todo names only defined tasks as inputs. */
  ghost predicate InputsDefined(byId: map<TaskId, Task>, names: map<string, TaskId>, todo: set<TaskId>) {
    forall id :: id in byId && id !in todo ==> AllDefined(names, byId[id].streamInputs)
  }

  ghost predicate HasMissingId(tasks: seq<Task>) {
    exists i :: 0 <= i < |tasks| && tasks[i].id == ""
  }

  ghost predicate HasUndefinedInput(tasks: seq<Task>) {
    !InputsDefined(TasksById(tasks), NameToId(tasks), {})
  }

  lemma {:induction false} IdsAreTasks(tasks: seq<Task>)
    ensures forall name :: name in NameToId(tasks) ==> NameToId(tasks)[name] in TasksById(tasks)
    ensures forall name :: name in RegisteredToId(tasks) ==> RegisteredToId(tasks)[name] in TasksById(tasks)
  {
    if tasks != [] { IdsAreTasks(tasks[..|tasks| - 1]); }
  }

  ghost predicate DistinctIds(tasks: seq<Task>) {
    forall i, j :: 0 <= i < j < |tasks| ==> tasks[i].id != tasks[j].id
  }

  lemma DistinctPrefix(tasks: seq<Task>)
    requires tasks != [] && DistinctIds(tasks)
    ensures var init, last := tasks[..|tasks| - 1], tasks[|tasks| - 1];
      tasks == init + [last] && DistinctIds(init) && forall t :: t in init ==> t.id != last.id
  {
    var init, last := tasks[..|tasks| - 1], tasks[|tasks| - 1];
    forall t | t in init ensures t.id != last.id {
      var i :| 0 <= i < |init| && init[i] == t;
      assert tasks[i] == t;
    }
  }

  lemma {:induction false} IndexedTasks(tasks: seq<Task>)
    requires DistinctIds(tasks)
    ensures forall id :: id in TasksById(tasks) <==> exists t :: t in tasks && t.id == id
    ensures forall t :: t in tasks ==> TasksById(tasks)[t.id] == t
  {
    if tasks != [] {
      DistinctPrefix(tasks);
      IndexedTasks(tasks[..|tasks| - 1]);
    }
  }

  lemma {:induction false} IndexedNames(tasks: seq<Task>)
    ensures forall name :: name in NameToId(tasks) <==> name != "" && exists t :: t in tasks && t.name == name
    ensures forall name :: name in NameToId(tasks) ==>
      exists t :: t in tasks && t.name == name && t.id == NameToId(tasks)[name]
  {
    if tasks != [] {
      assert tasks == tasks[..|tasks| - 1] + [tasks[|tasks| - 1]];
      IndexedNames(tasks[..|tasks| - 1]);
    }
  }

  /** What graph building accepts. */
  ghost predicate Accepted(tasks: seq<Task>) {
    !HasMissingId(tasks) && !HasUndefinedInput(tasks) && DependencyGraph(tasks).Acyclic()
  }

  // ---- Nodes and edges ----

  datatype BuildError = NoError | MissingId | UndefinedInput | CycleDetected

  /** The reverse edges are the graph's own. */
  ghost predicate NeighboursOk(g: Graph, requiredBy: map<TaskId, set<TaskId>>) {
    match g
    case Graph(nodes, _, _) =>
      g.WellFormed() && requiredBy.Keys == nodes
      && forall p {:trigger g.RequiredBy(p)} :: p in requiredBy ==> requiredBy[p] == g.RequiredBy(p)
  }

  /**
   The graph under construction. The fields of the nodes are kept as one map per field, keyed by
   node id; the neighbour maps of a node hold the node of each key, so their keys are kept.
   */
  class TaskGraph {
    var nodes: map<TaskId, Task>
    var streamDependsOn: map<TaskId, set<TaskId>>
    var stateDependsOn: map<TaskId, set<TaskId>>
    var requiredBy: map<TaskId, set<TaskId>>
    var streamDepsRemaining: map<TaskId, int>
    var stateDepsRemaining: map<TaskId, int>
    var nameToTaskID: map<string, TaskId>
    var registeredVarsToTaskID: map<string, TaskId>

    constructor ()
      ensures nodes == map[] && streamDependsOn == stateDependsOn == requiredBy == map[]
      ensures nameToTaskID == map[] && registeredVarsToTaskID == map[]
    {
      nodes, streamDependsOn, stateDependsOn, requiredBy := map[], map[], map[], map[];
      streamDepsRemaining, stateDepsRemaining := map[], map[];
      nameToTaskID, registeredVarsToTaskID := map[], map[];
    }

    /** The graph the nodes represent. */
    function View(): Graph
      reads this
    {
      Graph(nodes.Keys, streamDependsOn, stateDependsOn)
    }

    /** Producers are nodes, and the two directions of every edge agree. */
    ghost predicate Valid()
      reads this
    {
      NeighboursOk(View(), requiredBy)
    }

    ghost predicate SameKeys()
      reads this
    {
      streamDependsOn.Keys == stateDependsOn.Keys == requiredBy.Keys == nodes.Keys
    }

    ghost predicate NoEdges()
      reads this
    {
      && (forall id :: id in streamDependsOn ==> streamDependsOn[id] == {})
      && (forall id :: id in stateDependsOn ==> stateDependsOn[id] == {})
      && (forall id :: id in requiredBy ==> requiredBy[id] == {})
    }

    method AddNode(task: Task)
      requires SameKeys() && NoEdges()
      modifies this`nodes, this`streamDependsOn, this`stateDependsOn, this`requiredBy
      ensures SameKeys() && NoEdges() && nodes == old(nodes)[task.id := task]
    {
      nodes := nodes[task.id := task];
      streamDependsOn := streamDependsOn[task.id := {}];
      stateDependsOn := stateDependsOn[task.id := {}];
      requiredBy := requiredBy[task.id := {}];
    }

    /** Pass 1: a node without edges for every task, and the two indexes used to resolve references. */
    method CreateNodes(tasks: seq<Task>) returns (err: BuildError)
      requires nodes == map[] && streamDependsOn == stateDependsOn == requiredBy == map[]
      requires nameToTaskID == map[] && registeredVarsToTaskID == map[]
      modifies this
      ensures err == if HasMissingId(tasks) then MissingId else NoError
      ensures err == NoError ==>
        && SameKeys() && NoEdges() && nodes == TasksById(tasks)
        && nameToTaskID == NameToId(tasks) && registeredVarsToTaskID == RegisteredToId(tasks)
    {
      for i := 0 to |tasks|
        invariant nodes == TasksById(tasks[..i])
        invariant nameToTaskID == NameToId(tasks[..i]) && registeredVarsToTaskID == RegisteredToId(tasks[..i])
        invariant SameKeys() && NoEdges()
        invariant forall j :: 0 <= j < i ==> tasks[j].id != ""
      {
        IndexStep(tasks, i);
        var task := tasks[i];
        if task.id == "" {
          return MissingId;
        }
        AddNode(task);
        if task.name != "" {
          nameToTaskID := nameToTaskID[task.name := task.id];
        }
        if task.register != "" {
          registeredVarsToTaskID := registeredVarsToTaskID[task.register := task.id];
        }
      }
      assert tasks[..|tasks|] == tasks;
      err := NoError;
    }

    lemma NoEdgesValid()
      requires SameKeys() && NoEdges()
      ensures Valid()
    {
      forall p | p in requiredBy ensures View().RequiredBy(p) == {} {}
    }

    method AddStreamEdge(producerID: TaskId, consumerID: TaskId)
      requires Valid() && producerID in nodes && consumerID in nodes
      modifies this`streamDependsOn, this`requiredBy
      ensures Valid()
      ensures streamDependsOn == old(streamDependsOn)[consumerID := old(streamDependsOn)[consumerID] + {producerID}]
    {
      WithEdgeEffect(View(), Stream, producerID, consumerID, View().WithEdge(Stream, producerID, consumerID));
      assert requiredBy[producerID] == View().RequiredBy(producerID);
      if producerID !in streamDependsOn[consumerID] {
        streamDependsOn := streamDependsOn[consumerID := streamDependsOn[consumerID] + {producerID}];
        requiredBy := requiredBy[producerID := requiredBy[producerID] + {consumerID}];
      } else {
        assert streamDependsOn[consumerID] + {producerID} == streamDependsOn[consumerID];
      }
      assert View() == old(View()).WithEdge(Stream, producerID, consumerID);
    }

    method AddStateEdge(producerID: TaskId, consumerID: TaskId)
      requires Valid() && producerID in nodes && consumerID in nodes
      modifies this`stateDependsOn, this`requiredBy
      ensures Valid()
      ensures stateDependsOn == old(stateDependsOn)[consumerID := old(stateDependsOn)[consumerID] + {producerID}]
    {
      WithEdgeEffect(View(), State, producerID, consumerID, View().WithEdge(State, producerID, consumerID));
      assert requiredBy[producerID] == View().RequiredBy(producerID);
      if producerID !in stateDependsOn[consumerID] {
        stateDependsOn := stateDependsOn[consumerID := stateDependsOn[consumerID] + {producerID}];
        requiredBy := requiredBy[producerID := requiredBy[producerID] + {consumerID}];
      } else {
        assert stateDependsOn[consumerID] + {producerID} == stateDependsOn[consumerID];
      }
      assert View() == old(View()).WithEdge(State, producerID, consumerID);
    }

    /** The producers named by the indexes are nodes. */
    ghost predicate IndexesSound()
      reads this
    {
      && (forall name :: name in nameToTaskID ==> nameToTaskID[name] in nodes)
      && (forall name :: name in registeredVarsToTaskID ==> registeredVarsToTaskID[name] in nodes)
    }

    /** Stream edges of one consumer. */
    method AddStreamEdges(id: TaskId) returns (err: BuildError)
      requires Valid() && IndexesSound() && id in nodes && streamDependsOn[id] == {}
      modifies this`streamDependsOn, this`requiredBy
      ensures err == if AllDefined(nameToTaskID, nodes[id].streamInputs) then NoError else UndefinedInput
      ensures err == NoError ==>
        && Valid()
        && streamDependsOn == old(streamDependsOn)[id := StreamProducers(nameToTaskID, nodes[id].streamInputs)]
    {
      var inputs, names := nodes[id].streamInputs, nameToTaskID;
      ghost var before, done := streamDependsOn, {};
      assert inputs[..0] == [] && inputs[..|inputs|] == inputs && before[id := {}] == before;
      for i := 0 to |inputs|
        invariant Valid() && forall j :: 0 <= j < i ==> inputs[j] in names
        invariant done == StreamProducers(names, inputs[..i]) && streamDependsOn == before[id := done]
      {
        if inputs[i] !in names {
          AllDefinedMeans(names, inputs, |inputs|);
          return UndefinedInput;
        }
        done := AddInput(id, inputs, i, before, done);
      }
      AllDefinedMeans(names, inputs, |inputs|);
      err := NoError;
    }

    /** The edge for one stream input that names a task. */
    method AddInput(id: TaskId, inputs: seq<string>, i: nat, ghost before: map<TaskId, set<TaskId>>,
                    ghost done: set<TaskId>)
      returns (ghost done': set<TaskId>)
      requires Valid() && IndexesSound() && id in nodes && i < |inputs| && inputs[i] in nameToTaskID
      requires done == StreamProducers(nameToTaskID, inputs[..i]) && streamDependsOn == before[id := done]
      modifies this`streamDependsOn, this`requiredBy
      ensures Valid() && streamDependsOn == before[id := done']
      ensures done' == StreamProducers(nameToTaskID, inputs[..i + 1])
    {
      StreamStep(nameToTaskID, inputs, i);
      done' := done + {nameToTaskID[inputs[i]]};
      AddStreamEdge(nameToTaskID[inputs[i]], id);
    }

    /** State edges of one consumer. */
    method AddStateEdges(id: TaskId)
      requires Valid() && IndexesSound() && id in nodes && stateDependsOn[id] == {}
      modifies this`stateDependsOn, this`requiredBy
      ensures Valid()
      ensures stateDependsOn ==
        old(stateDependsOn)[id := StateProducers(nameToTaskID, registeredVarsToTaskID, nodes[id].variables, id)]
    {
      var paths, names, registered := nodes[id].variables, nameToTaskID, registeredVarsToTaskID;
      ghost var before, done := stateDependsOn, {};
      assert paths[..0] == [] && paths[..|paths|] == paths && before[id := {}] == before;
      for i := 0 to |paths|
        invariant Valid() && done == StateProducers(names, registered, paths[..i], id)
        invariant stateDependsOn == before[id := done]
      {
        done := AddVariable(id, paths, i, before, done);
      }
    }

    /** The edge for one variable, if it stands for another task. */
    method AddVariable(id: TaskId, paths: seq<string>, i: nat, ghost before: map<TaskId, set<TaskId>>,
                       ghost done: set<TaskId>)
      returns (ghost done': set<TaskId>)
      requires Valid() && IndexesSound() && id in nodes && i < |paths|
      requires done == StateProducers(nameToTaskID, registeredVarsToTaskID, paths[..i], id)
      requires stateDependsOn == before[id := done]
      modifies this`stateDependsOn, this`requiredBy
      ensures Valid() && stateDependsOn == before[id := done']
      ensures done' == StateProducers(nameToTaskID, registeredVarsToTaskID, paths[..i + 1], id)
    {
      StateStep(nameToTaskID, registeredVarsToTaskID, paths, i, id);
      var producer := ProducerOf(nameToTaskID, registeredVarsToTaskID, paths[i]);
      done' := StateProducers(nameToTaskID, registeredVarsToTaskID, paths[..i + 1], id);
      if producer.Some? && producer.value != "" && producer.value != id {
        AddStateEdge(producer.value, id);
      }
    }

    /** The producers that target gives id are the ones its task names. */
    ghost predicate IsTarget(target: Graph, id: TaskId)
      requires id in nodes
      reads this
    {
      && id in target.stream && target.stream[id] == StreamProducers(nameToTaskID, nodes[id].streamInputs)
      && id in target.state && target.state[id] ==
           StateProducers(nameToTaskID, registeredVarsToTaskID, nodes[id].variables, id)
    }

    /** The nodes outside todo have exactly their edges, the others have none yet. */
    ghost predicate EdgesDone(target: Graph, todo: set<TaskId>)
      reads this
    {
      && Valid() && IndexesSound() && todo <= nodes.Keys
      && Built(View(), target, todo)
    }

    ghost predicate DefinedOutside(todo: set<TaskId>)
      reads this
    {
      InputsDefined(nodes, nameToTaskID, todo)
    }

    /** All edges of one consumer. */
    method AddTaskEdges(id: TaskId, ghost target: Graph, ghost todo: set<TaskId>) returns (err: BuildError)
      requires EdgesDone(target, todo) && id in todo && DefinedOutside(todo)
      requires IsTarget(target, id)
      modifies this`streamDependsOn, this`stateDependsOn, this`requiredBy
      ensures err == if AllDefined(nameToTaskID, nodes[id].streamInputs) then NoError else UndefinedInput
      ensures err == NoError ==> EdgesDone(target, todo - {id}) && DefinedOutside(todo - {id})
    {
      assert View().stream[id] == {} && View().state[id] == {};
      err := AddStreamEdges(id);
      if err == NoError {
        AddStateEdges(id);
        BuiltStep(old(View()), View(), target, todo, id);
        DefinedStep(nodes, nameToTaskID, todo, id);
      }
    }

    /** Pass 2: all edges, with the nodes visited in any order. */
    method AddEdges(ghost target: Graph) returns (err: BuildError)
      requires EdgesDone(target, nodes.Keys) && forall id :: id in nodes ==> IsTarget(target, id)
      modifies this`streamDependsOn, this`stateDependsOn, this`requiredBy
      ensures err == if DefinedOutside({}) then NoError else UndefinedInput
      ensures err == NoError ==> EdgesDone(target, {})
    {
      var todo := nodes.Keys;
      while todo != {}
        invariant EdgesDone(target, todo) && DefinedOutside(todo)
        decreases todo
      {
        var id :| id in todo;
        err := AddTaskEdges(id, target, todo);
        if err != NoError {
          return;
        }
        todo := todo - {id};
      }
      err := NoError;
    }

    /** Pass 3: the counters, and the tasks that wait for nothing. */
    method InitCounters() returns (ready: seq<TaskId>)
      requires Valid()
      modifies this`streamDepsRemaining, this`stateDepsRemaining
      ensures CountersSet(nodes.Keys)
      ensures NoDup(ready) && forall id :: id in ready <==>
        id in nodes && streamDependsOn[id] == {} && stateDependsOn[id] == {}
    {
      ready := [];
      var todo := nodes.Keys;
      while todo != {}
        invariant todo <= nodes.Keys && CountersSet(nodes.Keys - todo) && NoDup(ready)
        invariant forall id :: id in ready <==>
          id in nodes && id !in todo && streamDependsOn[id] == {} && stateDependsOn[id] == {}
        decreases todo
      {
        var id :| id in todo;
        streamDepsRemaining := streamDepsRemaining[id := |streamDependsOn[id]|];
        stateDepsRemaining := stateDepsRemaining[id := |stateDependsOn[id]|];
        if streamDepsRemaining[id] == 0 && stateDepsRemaining[id] == 0 {
          ready := ready + [id];
        }
        todo := todo - {id};
      }
    }

    ghost predicate CountersSet(ids: set<TaskId>)
      reads this
    {
      forall id :: id in ids ==>
        && id in streamDepsRemaining && streamDepsRemaining[id] == |View().Deps(Stream, id)|
        && id in stateDepsRemaining && stateDepsRemaining[id] == |View().Deps(State, id)|
    }
  }

  lemma StreamStep(names: map<string, TaskId>, inputs: seq<string>, i: nat)
    requires i < |inputs| && inputs[i] in names
    ensures StreamProducers(names, inputs[..i + 1]) == StreamProducers(names, inputs[..i]) + {names[inputs[i]]}
  {
  }

  lemma StateStep(names: map<string, TaskId>, registered: map<string, TaskId>, paths: seq<string>, i: nat,
                  consumer: TaskId)
    requires i < |paths|
    ensures var before := StateProducers(names, registered, paths[..i], consumer);
      StateProducers(names, registered, paths[..i + 1], consumer) ==
        if IsStateProducer(names, registered, paths[i], consumer)
        then before + {ProducerOf(names, registered, paths[i]).value} else before
  {
  }

  /** In g the tasks outside todo have the producers that target gives them, the others none yet. */
  ghost predicate Built(g: Graph, target: Graph, todo: set<TaskId>) {
    && g.nodes == target.nodes
    && (forall id :: id in g.stream && id in target.stream ==>
         g.stream[id] == if id in todo then {} else target.stream[id])
    && (forall id :: id in g.state && id in target.state ==> g.state[id] == if id in todo then {} else target.state[id])
  }

  lemma DefinedStep(nodes: map<TaskId, Task>, names: map<string, TaskId>, todo: set<TaskId>, id: TaskId)
    requires InputsDefined(nodes, names, todo) && id in nodes && AllDefined(names, nodes[id].streamInputs)
    ensures InputsDefined(nodes, names, todo - {id})
  {
  }

  lemma BuiltStep(g: Graph, h: Graph, target: Graph, todo: set<TaskId>, id: TaskId)
    requires Built(g, target, todo) && id in todo && id in target.stream && id in target.state
    requires h.nodes == g.nodes && h.stream == g.stream[id := target.stream[id]]
    requires h.state == g.state[id := target.state[id]]
    ensures Built(h, target, todo - {id})
  {
  }
}
