/** What the graph of a playbook is, in terms of the list of its tasks alone. */
module DagMeaning {
  import opened Prelude
  import opened Graphs
  import opened Paths
  import opened Dag

  // ---- Of several tasks with one id, name or register the last counts ----

  ghost predicate IsTask(tasks: seq<Task>, id: TaskId, t: Task) {
    exists i: nat :: LastWithId(tasks, i, id) && tasks[i] == t
  }

  /** p is the id of the task with this name. */
  ghost predicate IsNamed(tasks: seq<Task>, name: string, p: TaskId) {
    name != "" && exists i: nat :: LastWithName(tasks, i, name) && tasks[i].id == p
  }

  /** p is the id of the task that registers this variable. */
  ghost predicate IsRegistered(tasks: seq<Task>, variable: string, p: TaskId) {
    variable != "" && exists i: nat :: LastWithRegister(tasks, i, variable) && tasks[i].id == p
  }

  ghost predicate LastWithId(tasks: seq<Task>, i: nat, id: TaskId) {
    i < |tasks| && tasks[i].id == id && forall j :: i < j < |tasks| ==> tasks[j].id != id
  }

  ghost predicate LastWithName(tasks: seq<Task>, i: nat, name: string) {
    i < |tasks| && tasks[i].name == name && forall j :: i < j < |tasks| ==> tasks[j].name != name
  }

  ghost predicate LastWithRegister(tasks: seq<Task>, i: nat, variable: string) {
    i < |tasks| && tasks[i].register == variable && forall j :: i < j < |tasks| ==> tasks[j].register != variable
  }

  /** One more task at the end of the list. */
  lemma LastStep(tasks: seq<Task>, i: nat, key: string)
    requires tasks != []
    ensures var init, last := tasks[..|tasks| - 1], tasks[|tasks| - 1];
      && (LastWithId(tasks, i, key) <==>
            if last.id == key then i == |tasks| - 1 else LastWithId(init, i, key))
      && (LastWithName(tasks, i, key) <==>
            if last.name == key then i == |tasks| - 1 else LastWithName(init, i, key))
      && (LastWithRegister(tasks, i, key) <==>
            if last.register == key then i == |tasks| - 1 else LastWithRegister(init, i, key))
  {
    var init := tasks[..|tasks| - 1];
    forall j | i < j < |tasks| - 1 ensures init[j] == tasks[j] {}
  }

  lemma {:induction false} TasksMean(tasks: seq<Task>, id: TaskId, t: Task)
    ensures id in TasksById(tasks) && TasksById(tasks)[id] == t <==> IsTask(tasks, id, t)
  {
    if tasks != [] {
      TasksMean(tasks[..|tasks| - 1], id, t);
      forall i: nat ensures LastWithId(tasks, i, id) <==>
        if tasks[|tasks| - 1].id == id then i == |tasks| - 1 else LastWithId(tasks[..|tasks| - 1], i, id)
      {
        LastStep(tasks, i, id);
      }
    }
  }

  lemma {:induction false} NamesMean(tasks: seq<Task>, name: string, p: TaskId)
    ensures name in NameToId(tasks) && NameToId(tasks)[name] == p <==> IsNamed(tasks, name, p)
  {
    if tasks != [] {
      NamesMean(tasks[..|tasks| - 1], name, p);
      forall i: nat ensures LastWithName(tasks, i, name) <==>
        if tasks[|tasks| - 1].name == name then i == |tasks| - 1 else LastWithName(tasks[..|tasks| - 1], i, name)
      {
        LastStep(tasks, i, name);
      }
    }
  }

  lemma {:induction false} RegistersMean(tasks: seq<Task>, variable: string, p: TaskId)
    ensures variable in RegisteredToId(tasks) && RegisteredToId(tasks)[variable] == p <==>
      IsRegistered(tasks, variable, p)
  {
    if tasks != [] {
      var init, last := tasks[..|tasks| - 1], tasks[|tasks| - 1];
      RegistersMean(init, variable, p);
      forall i: nat ensures LastWithRegister(tasks, i, variable) <==>
        if last.register == variable then i == |tasks| - 1 else LastWithRegister(init, i, variable)
      {
        LastStep(tasks, i, variable);
      }
    }
  }

  // ---- What a variable path stands for ----

  /** The path to a field of what the engine keeps about the task with this name. */
  predicate IsStatusPath(path: string, name: string, field: string) {
    '.' !in name && '.' !in field && path == "_gxo.tasks." + name + "." + field
  }

  predicate OfEngine(path: string) {
    "_gxo.tasks." <= path
  }

  lemma FrontParts(a: string, b: string, rest: string)
    requires '.' !in a && '.' !in b
    ensures Split(a + "." + b + "." + rest, '.') == [a, b] + Split(rest, '.')
  {
    SplitFirst(a, b + "." + rest, '.');
    SplitFirst(b, rest, '.');
    assert a + "." + b + "." + rest == a + ['.'] + (b + ['.'] + rest);
  }

  lemma EngineParts(rest: string)
    ensures Split("_gxo.tasks." + rest, '.') == ["_gxo", "tasks"] + Split(rest, '.')
  {
    FrontParts("_gxo", "tasks", rest);
    assert "_gxo.tasks." == "_gxo" + "." + "tasks" + ".";
  }

  lemma TwoParts(rest: string, name: string, field: string)
    ensures '.' !in name && '.' !in field && rest == name + "." + field <==> Split(rest, '.') == [name, field]
  {
    if '.' !in name && '.' !in field && rest == name + "." + field {
      SplitFirst(name, field, '.');
      SplitFirst(field, "", '.');
    }
    if Split(rest, '.') == [name, field] {
      SplitParts(rest, '.');
      assert name == Split(rest, '.')[0] && field == Split(rest, '.')[1];
      JoinSplit(rest, '.');
      assert Join([name, field], '.') == name + "." + field;
    }
  }

  lemma StatusPathParts(path: string, name: string, field: string)
    requires OfEngine(path)
    ensures IsStatusPath(path, name, field) <==> Split(path, '.') == ["_gxo", "tasks", name, field]
  {
    var prefix := "_gxo.tasks.";
    var rest := path[|prefix|..];
    assert path == prefix + rest;
    EngineParts(rest);
    TwoParts(rest, name, field);
    var parts := Split(rest, '.');
    assert (["_gxo", "tasks"] + parts)[2..] == parts;
    assert ["_gxo", "tasks", name, field] == ["_gxo", "tasks"] + [name, field];
    assert ["_gxo", "tasks", name, field][2..] == [name, field];
    assert path == prefix + name + "." + field <==> rest == name + "." + field by {
      assert prefix + name + "." + field == prefix + (name + "." + field);
    }
  }

  /** Reading the path makes a task wait for the task p. */
  ghost predicate Mentions(tasks: seq<Task>, path: string, p: TaskId) {
    if OfEngine(path) then exists name, field :: IsStatusPath(path, name, field) && IsNamed(tasks, name, p)
    else IsRegistered(tasks, path, p)
  }

  lemma ProducerMeans(tasks: seq<Task>, path: string, p: TaskId)
    ensures ProducerOf(NameToId(tasks), RegisteredToId(tasks), path) == Some(p) <==> Mentions(tasks, path, p)
  {
    RegistersMean(tasks, path, p);
    if OfEngine(path) {
      var parts := Split(path, '.');
      EngineParts(path[|"_gxo.tasks."|..]);
      assert path == "_gxo.tasks." + path[|"_gxo.tasks."|..];
      if |parts| == 4 {
        StatusPathParts(path, parts[2], parts[3]);
        assert parts == ["_gxo", "tasks", parts[2], parts[3]];
        NamesMean(tasks, parts[2], p);
      }
      forall name, field | IsStatusPath(path, name, field) ensures |parts| == 4 && parts[2] == name {
        StatusPathParts(path, name, field);
      }
    }
  }

  // ---- The graph ----

  /** The nodes are the ids of the tasks. */
  lemma NodesMean(tasks: seq<Task>, id: TaskId)
    ensures id in DependencyGraph(tasks).nodes <==> exists t :: IsTask(tasks, id, t)
  {
    if id in TasksById(tasks) { TasksMean(tasks, id, TasksById(tasks)[id]); }
    forall t | IsTask(tasks, id, t) ensures id in TasksById(tasks) { TasksMean(tasks, id, t); }
  }

  /** t waits for p by a stream edge exactly if the task with this id has an input with the name of p. */
  lemma StreamEdgesMean(tasks: seq<Task>, p: TaskId, t: TaskId)
    ensures p in DependencyGraph(tasks).Deps(Stream, t) <==>
      exists task, name :: IsTask(tasks, t, task) && name in task.streamInputs && IsNamed(tasks, name, p)
  {
    var names := NameToId(tasks);
    if p in DependencyGraph(tasks).Deps(Stream, t) {
      var task := TasksById(tasks)[t];
      TasksMean(tasks, t, task);
      var name :| name in task.streamInputs && name in names && names[name] == p;
      NamesMean(tasks, name, p);
    }
    if task, name :| IsTask(tasks, t, task) && name in task.streamInputs && IsNamed(tasks, name, p) {
      TasksMean(tasks, t, task);
      NamesMean(tasks, name, p);
    }
  }

  /**
   t waits for p by a state edge exactly if they are two tasks, p is not the empty id, and the task t
   mentions a path that stands for p: a status path with p's name, or another path that p registers.
   */
  lemma StateEdgesMean(tasks: seq<Task>, p: TaskId, t: TaskId)
    ensures p in DependencyGraph(tasks).Deps(State, t) <==>
      && p != t && p != ""
      && exists task, path :: IsTask(tasks, t, task) && path in task.variables && Mentions(tasks, path, p)
  {
    var names, registered := NameToId(tasks), RegisteredToId(tasks);
    if p in DependencyGraph(tasks).Deps(State, t) {
      var task := TasksById(tasks)[t];
      TasksMean(tasks, t, task);
      var path :| path in task.variables && IsStateProducer(names, registered, path, t)
        && ProducerOf(names, registered, path).value == p;
      ProducerMeans(tasks, path, p);
    }
    if task, path :| p != t && p != "" && IsTask(tasks, t, task) && path in task.variables && Mentions(tasks, path, p) {
      TasksMean(tasks, t, task);
      ProducerMeans(tasks, path, p);
      assert IsStateProducer(names, registered, path, t);
    }
  }

  /** A task without an id is missing one wherever it stands in the list. */
  lemma MissingMeans(tasks: seq<Task>)
    ensures HasMissingId(tasks) <==> exists t :: t in tasks && t.id == ""
  {
    if t :| t in tasks && t.id == "" {
      var i :| 0 <= i < |tasks| && tasks[i] == t;
      assert tasks[i].id == "";
    }
  }

  /** An input is undefined exactly if no task has its name. */
  lemma UndefinedMeans(tasks: seq<Task>)
    ensures HasUndefinedInput(tasks) <==>
      exists id, t, name :: IsTask(tasks, id, t) && name in t.streamInputs && forall p :: !IsNamed(tasks, name, p)
  {
    var byId, names := TasksById(tasks), NameToId(tasks);
    if HasUndefinedInput(tasks) {
      var id :| id in byId && !AllDefined(names, byId[id].streamInputs);
      TasksMean(tasks, id, byId[id]);
      AllDefinedMeans(names, byId[id].streamInputs, |byId[id].streamInputs|);
      var i :| 0 <= i < |byId[id].streamInputs| && byId[id].streamInputs[i] !in names;
      var name := byId[id].streamInputs[i];
      forall p ensures !IsNamed(tasks, name, p) { NamesMean(tasks, name, p); }
      assert IsTask(tasks, id, byId[id]) && name in byId[id].streamInputs;
    }
    if id, t, name :| IsTask(tasks, id, t) && name in t.streamInputs && forall p :: !IsNamed(tasks, name, p) {
      TasksMean(tasks, id, t);
      if name in names { NamesMean(tasks, name, names[name]); }
      AllDefinedMeans(names, t.streamInputs, |t.streamInputs|);
    }
  }

  // ---- A playbook whose edge comes from a status path ----

  /** deploy waits for build to have a status. */
  function StatusTasks(): seq<Task> {
    [Task("a", "build", "", [], []), Task("b", "deploy", "", [], ["_gxo.tasks.build.status"])]
  }

  lemma StatusTask(t: Task)
    ensures IsTask(StatusTasks(), "a", t) <==> t == StatusTasks()[0]
    ensures IsTask(StatusTasks(), "b", t) <==> t == StatusTasks()[1]
    ensures forall id :: IsTask(StatusTasks(), id, t) ==> id == "a" || id == "b"
  {
    var tasks := StatusTasks();
    assert LastWithId(tasks, 0, "a") && LastWithId(tasks, 1, "b");
  }

  lemma StatusNames(name: string, p: TaskId)
    ensures IsNamed(StatusTasks(), name, p) <==> (name == "build" && p == "a") || (name == "deploy" && p == "b")
  {
    var tasks := StatusTasks();
    assert LastWithName(tasks, 0, "build") && LastWithName(tasks, 1, "deploy");
  }

  lemma StatusMeans(tasks: seq<Task>, path: string, name: string, field: string, p: TaskId)
    requires OfEngine(path) && IsStatusPath(path, name, field)
    ensures Mentions(tasks, path, p) <==> IsNamed(tasks, name, p)
  {
    StatusPathParts(path, name, field);
    forall n, g | IsStatusPath(path, n, g) ensures n == name { StatusPathParts(path, n, g); }
  }

  lemma BuildStatus()
    ensures OfEngine("_gxo.tasks.build.status") && IsStatusPath("_gxo.tasks.build.status", "build", "status")
  {
    assert "_gxo.tasks.build.status" == "_gxo.tasks." + "build" + "." + "status";
    assert "_gxo.tasks.build.status"[..11] == "_gxo.tasks.";
  }

  lemma StatusMentioned(p: TaskId)
    ensures Mentions(StatusTasks(), "_gxo.tasks.build.status", p) <==> p == "a"
  {
    BuildStatus();
    StatusMeans(StatusTasks(), "_gxo.tasks.build.status", "build", "status", p);
    StatusNames("build", p);
  }

  /** Its graph has the state edge from build to deploy, and no other edge. */
  lemma StatusEdge(p: TaskId, t: TaskId)
    ensures p in DependencyGraph(StatusTasks()).Deps(State, t) <==> p == "a" && t == "b"
    ensures p !in DependencyGraph(StatusTasks()).Deps(Stream, t)
  {
    var tasks := StatusTasks();
    StateEdgesMean(tasks, p, t);
    StreamEdgesMean(tasks, p, t);
    StatusMentioned(p);
    forall task ensures IsTask(tasks, t, task) ==> (t == "a" && task == tasks[0]) || (t == "b" && task == tasks[1]) {
      StatusTask(task);
    }
    StatusTask(tasks[1]);
    assert "_gxo.tasks.build.status" in tasks[1].variables;
  }

  lemma StatusNodes(id: TaskId)
    ensures id in DependencyGraph(StatusTasks()).nodes <==> id == "a" || id == "b"
  {
    NodesMean(StatusTasks(), id);
    forall t ensures IsTask(StatusTasks(), id, t) ==> id == "a" || id == "b" { StatusTask(t); }
    StatusTask(StatusTasks()[0]);
    StatusTask(StatusTasks()[1]);
  }

  lemma StatusIsAccepted()
    ensures Accepted(StatusTasks()) && "a" in DependencyGraph(StatusTasks()).Deps(State, "b")
  {
    var tasks, g := StatusTasks(), DependencyGraph(StatusTasks());
    StatusEdge("a", "b");
    UndefinedMeans(tasks);
    forall id, t | IsTask(tasks, id, t) ensures t.streamInputs == [] { StatusTask(t); }
    forall p ensures !g.IsCycle(p) {
      if |p| >= 2 && g.IsPath(p) {
        StatusEdge(p[0], p[1]);
        StatusEdge(p[|p| - 2], p[|p| - 1]);
        assert g.Edge(p[0], p[1]) && g.Edge(p[|p| - 2], p[|p| - 1]);
      }
    }
  }
}
