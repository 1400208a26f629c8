/**
 The ready channel of the engine holds one message per task and one per worker, but a task with both
 kinds of producers can be sent twice, and the scheduler, the only receiver, sends as well. How many
 such tasks there may be before it can block on its own send for ever: two more than workers.
 */
module SchedulerDeadlock {
  import opened Prelude
  import opened Graphs
  import opened Scheduler
  import opened SchedulerSignals
  import opened SchedulerWakeups
  import opened SchedulerTheorems
  import opened SchedulerProgress
  import opened Dag
  import opened Paths

  /** The capacity the engine gives the ready channel. */
  function EngineCapacity(g: Graph, workers: nat): nat {
    |g.nodes| + workers
  }

  /** The scheduler waits to send on a full ready channel that only it could drain. */
  predicate SchedulerBlocked(c: Config, s: Sys) {
    && IsSignalling(s, 0) && s.actors[0].phase.Send?
    && |s.ready| >= c.readyCap
  }

  lemma StaysBlocked(c: Config, s: Sys, step: Step)
    requires SchedulerBlocked(c, s) && Enabled(c, s, step)
    ensures SchedulerBlocked(c, Apply(c, s, step)) && Apply(c, s, step).actors[0] == s.actors[0]
    ensures Apply(c, s, step).dispatched == s.dispatched
  {
    match step
    case Decrement(a, d) => DecrementMoves(c, s, a, d);
    case Complete(a, o, r) => CompleteMoves(c, s, a, o, r);
    case _ =>
  }

  /** Once blocked the scheduler dispatches nothing more, whatever the workers do and even if the run is cancelled. */
  lemma {:induction false} BlockedForever(c: Config, s: Sys, run: seq<Step>)
    requires SchedulerBlocked(c, s) && IsRun(c, s, run)
    ensures SchedulerBlocked(c, After(c, s, run)) && After(c, s, run).dispatched == s.dispatched
    decreases |run|
  {
    if run != [] {
      StaysBlocked(c, s, run[0]);
      BlockedForever(c, Apply(c, s, run[0]), run[1..]);
    }
  }

  // ---- A run that blocks ----

  /** Every task of cs streams from p and reads the state of q; p and q wait for nothing. */
  function Star(p: TaskId, q: TaskId, cs: seq<TaskId>): Graph {
    var nodes := {p, q} + Elements(cs);
    Graph(nodes,
          map n | n in nodes :: if n in cs then {p} else {},
          map n | n in nodes :: if n in cs then {q} else {})
  }

  ghost predicate StarShape(g: Graph, p: TaskId, q: TaskId, cs: seq<TaskId>) {
    && p != q && p !in cs && q !in cs && NoDup(cs)
    && g.nodes == {p, q} + Elements(cs) && g.WellFormed()
    && g.Deps(Stream, p) == {} && g.Deps(State, p) == {} && g.Deps(Stream, q) == {} && g.Deps(State, q) == {}
    && forall n :: n in cs ==> g.Deps(Stream, n) == {p} && g.Deps(State, n) == {q}
  }

  lemma StarHasShape(p: TaskId, q: TaskId, cs: seq<TaskId>)
    requires p != q && p !in cs && q !in cs && NoDup(cs)
    ensures StarShape(Star(p, q, cs), p, q, cs) && Star(p, q, cs).Acyclic()
  {
    var g := Star(p, q, cs);
    forall path ensures !g.IsCycle(path) {
      if |path| >= 2 && g.IsPath(path) {
        assert g.Edge(path[0], path[1]) && g.Edge(path[|path| - 2], path[|path| - 1]);
      }
    }
  }

  // ---- A playbook with this graph ----

  const REGISTERED := "r"

  /** p streams to every task of cs, and q registers its result, which they all read. */
  function StarTasks(p: TaskId, q: TaskId, cs: seq<TaskId>): seq<Task> {
    [Task(p, p, "", [], []), Task(q, q, REGISTERED, [], [])]
    + seq(|cs|, i requires 0 <= i < |cs| => Task(cs[i], cs[i], "", [p], [REGISTERED]))
  }

  ghost predicate StarNames(p: TaskId, q: TaskId, cs: seq<TaskId>) {
    p != q && p !in cs && q !in cs && NoDup(cs) && p != "" && q != "" && "" !in cs
  }

  function StarTaskOf(p: TaskId, q: TaskId, cs: seq<TaskId>, id: TaskId): Task {
    if id in cs then Task(id, id, "", [p], [REGISTERED]) else Task(id, id, if id == q then REGISTERED else "", [], [])
  }

  predicate InStar(p: TaskId, q: TaskId, cs: seq<TaskId>, id: TaskId) {
    id == p || id == q || id in cs
  }

  lemma StarTask(p: TaskId, q: TaskId, cs: seq<TaskId>, t: Task)
    requires StarNames(p, q, cs)
    ensures t in StarTasks(p, q, cs) <==> InStar(p, q, cs, t.id) && t == StarTaskOf(p, q, cs, t.id)
  {
    var tasks := StarTasks(p, q, cs);
    if t.id in cs && t == StarTaskOf(p, q, cs, t.id) {
      var i :| 0 <= i < |cs| && cs[i] == t.id;
      assert tasks[i + 2] == t;
    }
    assert tasks[0] == StarTaskOf(p, q, cs, p) && tasks[1] == StarTaskOf(p, q, cs, q);
  }

  lemma StarIds(p: TaskId, q: TaskId, cs: seq<TaskId>)
    requires StarNames(p, q, cs)
    ensures DistinctIds(StarTasks(p, q, cs))
  {
    var tasks := StarTasks(p, q, cs);
    forall i, j | 0 <= i < j < |tasks| ensures tasks[i].id != tasks[j].id {
      if i >= 2 { assert tasks[i].id == cs[i - 2] && tasks[j].id == cs[j - 2]; }
      else if j >= 2 { assert tasks[j].id == cs[j - 2] && cs[j - 2] in cs; }
    }
  }

  lemma {:induction false} OnlyRegistered(tasks: seq<Task>, q: TaskId)
    requires forall t :: t in tasks ==> t.register == "" || (t.register == REGISTERED && t.id == q)
    ensures forall x :: x in RegisteredToId(tasks) ==> x == REGISTERED && RegisteredToId(tasks)[x] == q
    ensures (exists t :: t in tasks && t.register == REGISTERED) ==> REGISTERED in RegisteredToId(tasks)
  {
    if tasks != [] {
      assert tasks == tasks[..|tasks| - 1] + [tasks[|tasks| - 1]];
      OnlyRegistered(tasks[..|tasks| - 1], q);
    }
  }

  /** The tasks are found by their ids and by their names, which are the same. */
  lemma StarById(p: TaskId, q: TaskId, cs: seq<TaskId>, id: TaskId)
    requires StarNames(p, q, cs)
    ensures var tasks := StarTasks(p, q, cs);
      && (id in TasksById(tasks) <==> InStar(p, q, cs, id))
      && (InStar(p, q, cs, id) ==> TasksById(tasks)[id] == StarTaskOf(p, q, cs, id))
  {
    var tasks := StarTasks(p, q, cs);
    StarIds(p, q, cs);
    IndexedTasks(tasks);
    StarTask(p, q, cs, StarTaskOf(p, q, cs, id));
    if t :| t in tasks && t.id == id { StarTask(p, q, cs, t); }
  }

  lemma StarByName(p: TaskId, q: TaskId, cs: seq<TaskId>, id: TaskId)
    requires StarNames(p, q, cs)
    ensures var tasks := StarTasks(p, q, cs);
      && (id in NameToId(tasks) <==> InStar(p, q, cs, id))
      && (InStar(p, q, cs, id) ==> NameToId(tasks)[id] == id)
  {
    var tasks := StarTasks(p, q, cs);
    IndexedNames(tasks);
    StarTask(p, q, cs, StarTaskOf(p, q, cs, id));
    forall t | t in tasks && t.name == id ensures t.id == id && InStar(p, q, cs, id) { StarTask(p, q, cs, t); }
  }

  lemma StarRegistered(p: TaskId, q: TaskId, cs: seq<TaskId>)
    requires StarNames(p, q, cs)
    ensures RegisteredToId(StarTasks(p, q, cs)) == map[REGISTERED := q]
  {
    var tasks := StarTasks(p, q, cs);
    forall t | t in tasks ensures t.register == "" || (t.register == REGISTERED && t.id == q) { StarTask(p, q, cs, t); }
    StarTask(p, q, cs, StarTaskOf(p, q, cs, q));
    OnlyRegistered(tasks, q);
  }

  /** The producers of one task of the star. */
  lemma StarProducers(p: TaskId, q: TaskId, cs: seq<TaskId>, id: TaskId)
    requires StarNames(p, q, cs) && InStar(p, q, cs, id)
    ensures var tasks, t := StarTasks(p, q, cs), StarTaskOf(p, q, cs, id);
      && AllDefined(NameToId(tasks), t.streamInputs)
      && StreamProducers(NameToId(tasks), t.streamInputs) == (if id in cs then {p} else {})
      && StateProducers(NameToId(tasks), RegisteredToId(tasks), t.variables, id) == (if id in cs then {q} else {})
  {
    var tasks, t := StarTasks(p, q, cs), StarTaskOf(p, q, cs, id);
    StarByName(p, q, cs, p);
    StarRegistered(p, q, cs);
    AllDefinedMeans(NameToId(tasks), t.streamInputs, |t.streamInputs|);
    assert !HasPrefix(REGISTERED, STATUS_PREFIX);
    assert ProducerOf(NameToId(tasks), map[REGISTERED := q], REGISTERED) == Some(q);
  }

  lemma StarNode(p: TaskId, q: TaskId, cs: seq<TaskId>, id: TaskId)
    requires StarNames(p, q, cs)
    ensures var g, star := DependencyGraph(StarTasks(p, q, cs)), Star(p, q, cs);
      && (id in g.nodes <==> id in star.nodes)
      && (id in g.nodes ==> g.stream[id] == star.stream[id] && g.state[id] == star.state[id])
  {
    StarById(p, q, cs, id);
    if InStar(p, q, cs, id) { StarProducers(p, q, cs, id); }
  }

  lemma SameGraph(g: Graph, h: Graph)
    requires g.stream.Keys == g.state.Keys == g.nodes && h.stream.Keys == h.state.Keys == h.nodes
    requires forall id :: id in g.nodes <==> id in h.nodes
    requires forall id :: id in g.nodes ==> g.stream[id] == h.stream[id] && g.state[id] == h.state[id]
    ensures g == h
  {
    assert g.nodes == h.nodes;
    assert g.stream == h.stream && g.state == h.state;
  }

  lemma StarGraph(p: TaskId, q: TaskId, cs: seq<TaskId>)
    requires StarNames(p, q, cs)
    ensures DependencyGraph(StarTasks(p, q, cs)) == Star(p, q, cs)
  {
    var g, star := DependencyGraph(StarTasks(p, q, cs)), Star(p, q, cs);
    forall id
      ensures id in g.nodes <==> id in star.nodes
      ensures id in g.nodes ==> g.stream[id] == star.stream[id] && g.state[id] == star.state[id]
    {
      StarNode(p, q, cs, id);
    }
    SameGraph(g, star);
  }

  /** Graph building accepts the playbook, and its graph is the star. */
  lemma StarIsAccepted(p: TaskId, q: TaskId, cs: seq<TaskId>)
    requires StarNames(p, q, cs)
    ensures Accepted(StarTasks(p, q, cs)) && DependencyGraph(StarTasks(p, q, cs)) == Star(p, q, cs)
  {
    var tasks := StarTasks(p, q, cs);
    StarHasShape(p, q, cs);
    StarGraph(p, q, cs);
    forall i | 0 <= i < |tasks| ensures tasks[i].id != "" { StarTask(p, q, cs, tasks[i]); }
    forall id | id in TasksById(tasks) ensures AllDefined(NameToId(tasks), TasksById(tasks)[id].streamInputs) {
      StarById(p, q, cs, id);
      StarProducers(p, q, cs, id);
    }
  }

  ghost predicate IsStar(c: Config, p: TaskId, q: TaskId, cs: seq<TaskId>) {
    StarShape(c.g, p, q, cs) && c.workers >= 1 && c.readyCap == EngineCapacity(c.g, c.workers)
  }

  /** Every task of cs from index j on still waits for one producer of either kind. */
  ghost predicate Untouched(s: Sys, cs: seq<TaskId>, j: nat) {
    forall i :: j <= i < |cs| ==>
      cs[i] in s.streamLeft && cs[i] in s.stateLeft && s.streamLeft[cs[i]] == s.stateLeft[cs[i]] == 1
  }

  /** p is dispatched and signalling, q is completed and signalling, and both are through with the first j of cs. */
  ghost predicate Signallers(c: Config, s: Sys, p: TaskId, q: TaskId, todo: set<TaskId>, ph0: Phase, ph1: Phase) {
    && Reachable(c, s) && |s.actors| >= 2
    && s.actors[0] == Signalling(Stream, p, todo, ph0)
    && s.actors[1] == Signalling(State, q, todo, ph1)
  }

  ghost predicate Round(c: Config, s: Sys, p: TaskId, q: TaskId, cs: seq<TaskId>, j: nat)
    requires j <= |cs|
  {
    && Signallers(c, s, p, q, Elements(cs[j..]), Next, Next)
    && Untouched(s, cs, j) && |s.ready| == 2 * j
  }

  /** Both signallers have decremented cs[j] to zero and are at the given points of their checks. */
  ghost predicate Crossed(c: Config, s: Sys, p: TaskId, q: TaskId, cs: seq<TaskId>, j: nat, ph0: Phase, ph1: Phase)
    requires j < |cs|
  {
    && Signallers(c, s, p, q, Elements(cs[j + 1..]), ph0, ph1)
    && s.BothZero(cs[j]) && Untouched(s, cs, j + 1) && |s.ready| == 2 * j
  }

  lemma TailWithout(cs: seq<TaskId>, j: nat)
    requires NoDup(cs) && j < |cs|
    ensures cs[j] in Elements(cs[j..]) && Elements(cs[j..]) - {cs[j]} == Elements(cs[j + 1..])
  {
  }

  lemma CrossDecrements(c: Config, s: Sys, p: TaskId, q: TaskId, cs: seq<TaskId>, j: nat) returns (s': Sys)
    requires NoDup(cs) && j < |cs| && Round(c, s, p, q, cs, j)
    requires c.g.Deps(Stream, cs[j]) == {p} && c.g.Deps(State, cs[j]) == {q}
    ensures Crossed(c, s', p, q, cs, j, LoadStream(cs[j]), LoadStream(cs[j]))
  {
    TailWithout(cs, j);
    var d := cs[j];
    ReachNext(c, s, Decrement(0, d));
    var s1 := ApplyDecrement(c, s, 0, d);
    assert s1.actors == s.actors[0 := Signalling(Stream, p, Elements(cs[j + 1..]), LoadStream(d))];
    assert s1.stateLeft == s.stateLeft && s1.streamLeft == s.streamLeft[d := 0];
    ReachNext(c, s1, Decrement(1, d));
    s' := ApplyDecrement(c, s1, 1, d);
  }

  /** Each signaller loads both counters of cs[j] and finds them zero. */
  lemma CrossChecks(c: Config, s: Sys, p: TaskId, q: TaskId, cs: seq<TaskId>, j: nat) returns (s': Sys)
    requires j < |cs| && Crossed(c, s, p, q, cs, j, LoadStream(cs[j]), LoadStream(cs[j]))
    ensures Crossed(c, s', p, q, cs, j, Send(cs[j]), Send(cs[j]))
  {
    s' := s;
    ReachNext(c, s', Load(0));
    s' := ApplyLoad(c, s', 0);
    ReachNext(c, s', Load(0));
    s' := ApplyLoad(c, s', 0);
    assert Crossed(c, s', p, q, cs, j, Send(cs[j]), LoadStream(cs[j]));
    ReachNext(c, s', Load(1));
    s' := ApplyLoad(c, s', 1);
    ReachNext(c, s', Load(1));
    s' := ApplyLoad(c, s', 1);
  }

  lemma CrossSends(c: Config, s: Sys, p: TaskId, q: TaskId, cs: seq<TaskId>, j: nat) returns (s': Sys)
    requires j < |cs| && Crossed(c, s, p, q, cs, j, Send(cs[j]), Send(cs[j])) && 2 * j + 1 < c.readyCap
    ensures Round(c, s', p, q, cs, j + 1)
  {
    ReachNext(c, s, SendReady(1));
    var s1 := ApplySend(c, s, 1);
    ReachNext(c, s1, SendReady(0));
    s' := ApplySend(c, s1, 0);
  }

  /** From round j on, duplicate messages fill the channel until the scheduler is blocked. */
  lemma {:induction false} RoundsBlock(c: Config, s: Sys, p: TaskId, q: TaskId, cs: seq<TaskId>, j: nat)
    returns (end: Sys)
    requires StarShape(c.g, p, q, cs) && j <= |cs| && Round(c, s, p, q, cs, j)
    requires 2 * j <= c.readyCap < 2 * |cs|
    ensures Reachable(c, end) && SchedulerBlocked(c, end)
    decreases |cs| - j
  {
    assert cs[j] in cs;
    var s1 := CrossDecrements(c, s, p, q, cs, j);
    var s2 := CrossChecks(c, s1, p, q, cs, j);
    if 2 * j + 1 < c.readyCap {
      var s3 := CrossSends(c, s2, p, q, cs, j);
      end := RoundsBlock(c, s3, p, q, cs, j + 1);
    } else if 2 * j + 1 == c.readyCap {
      ReachNext(c, s2, SendReady(1));
      end := ApplySend(c, s2, 1);
    } else {
      end := s2;
    }
  }

  // ---- The start of that run ----

  /** The scheduler offers the stream of q to nobody: no task streams from q. */
  lemma {:induction false} SkipAll(c: Config, s: Sys, q: TaskId, cs: seq<TaskId>, j: nat) returns (s': Sys)
    requires NoDup(cs) && j <= |cs| && Reachable(c, s) && |s.actors| > 0
    requires forall n :: n in cs ==> q !in c.g.Deps(Stream, n)
    requires s.actors[0] == Signalling(Stream, q, Elements(cs[j..]), Next) && Untouched(s, cs, 0)
    ensures Reachable(c, s') && s' == s.(actors := s.actors[0 := Signalling(Stream, q, {}, Next)])
    decreases |cs| - j
  {
    if j == |cs| {
      assert Elements(cs[j..]) == {};
      assert s.actors == s.actors[0 := Signalling(Stream, q, {}, Next)];
      s' := s;
    } else {
      TailWithout(cs, j);
      ReachNext(c, s, Decrement(0, cs[j]));
      var s1 := ApplyDecrement(c, s, 0, cs[j]);
      assert s1 == s.(actors := s.actors[0 := Signalling(Stream, q, Elements(cs[j + 1..]), Next)]);
      s' := SkipAll(c, s1, q, cs, j + 1);
      assert s'.actors == s.actors[0 := Signalling(Stream, q, {}, Next)];
    }
  }

  lemma StarRequiredBy(c: Config, p: TaskId, q: TaskId, cs: seq<TaskId>)
    requires IsStar(c, p, q, cs)
    ensures c.g.WellFormed() && c.g.RequiredBy(p) == c.g.RequiredBy(q) == Elements(cs)
    ensures InitiallyReady(c.g) == {p, q} && BothKinds(c.g) == Elements(cs)
  {
  }

  /** The initial state that seeds q before p. */
  function StarInit(c: Config, p: TaskId, q: TaskId): Sys {
    Sys(map n | n in c.g.nodes :: Pending,
        map n | n in c.g.nodes :: |c.g.Deps(Stream, n)|,
        map n | n in c.g.nodes :: |c.g.Deps(State, n)|,
        {}, [q, p], [], seq(c.workers + 1, _ => Idle), false, false, false, {}, [q, p], [])
  }

  lemma StarInits(c: Config, p: TaskId, q: TaskId, cs: seq<TaskId>)
    requires IsStar(c, p, q, cs)
    ensures Init(c, StarInit(c, p, q))
  {
    StarRequiredBy(c, p, q, cs);
    assert Elements(StarInit(c, p, q).ready) == {p, q};
  }

  lemma StarUntouched(c: Config, p: TaskId, q: TaskId, cs: seq<TaskId>)
    requires StarShape(c.g, p, q, cs)
    ensures Untouched(StarInit(c, p, q), cs, 0)
  {
  }

  lemma StarInitOk(c: Config, p: TaskId, q: TaskId, cs: seq<TaskId>) returns (s: Sys)
    requires IsStar(c, p, q, cs)
    ensures Reachable(c, s) && Untouched(s, cs, 0) && |s.actors| == c.workers + 1
    ensures s.actors[0].Idle? && s.actors[1].Idle? && s.ready == [q, p] && s.queue == [] && s.dispatched == {}
    ensures p in s.status && q in s.status && s.status[p] == s.status[q] == Pending
  {
    s := StarInit(c, p, q);
    StarInits(c, p, q, cs);
    StarUntouched(c, p, q, cs);
    assert IsRun(c, s, []) && After(c, s, []) == s;
  }

  /** q is dispatched and at hand, p is next, and no task of cs has been touched. */
  ghost predicate QFirst(c: Config, s: Sys, p: TaskId, q: TaskId, cs: seq<TaskId>, todo: set<TaskId>) {
    && Reachable(c, s) && Untouched(s, cs, 0) && |s.actors| == c.workers + 1 >= 2
    && s.actors[0] == Signalling(Stream, q, todo, Next) && s.actors[1].Idle?
    && s.ready == [p] && s.queue == [] && s.dispatched == {q}
    && p in s.status && q in s.status && s.status[p] == Pending && s.status[q] == Running
  }

  lemma StarDispatch(c: Config, p: TaskId, q: TaskId, cs: seq<TaskId>, s0: Sys) returns (s: Sys)
    requires Reachable(c, s0) && Untouched(s0, cs, 0) && |s0.actors| == c.workers + 1 >= 2
    requires s0.actors[0].Idle? && s0.actors[1].Idle? && s0.ready == [q, p] && s0.queue == [] && s0.dispatched == {}
    requires p in s0.status && q in s0.status && s0.status[p] == s0.status[q] == Pending && p != q
    ensures QFirst(c, s, p, q, cs, c.g.RequiredBy(q))
  {
    ReachNext(c, s0, Receive);
    s := ApplyReceive(c, s0);
  }

  /** The scheduler dispatches q and offers its stream to everyone who requires it. */
  lemma StarOffer(c: Config, p: TaskId, q: TaskId, cs: seq<TaskId>, s0: Sys) returns (s: Sys)
    requires NoDup(cs) && QFirst(c, s0, p, q, cs, Elements(cs))
    requires forall n :: n in cs ==> q !in c.g.Deps(Stream, n)
    ensures QFirst(c, s, p, q, cs, {})
  {
    assert cs[0..] == cs;
    s := SkipAll(c, s0, q, cs, 0);
  }

  lemma StarQueueQ(c: Config, q: TaskId, s0: Sys) returns (s: Sys)
    requires Reachable(c, s0) && c.workers >= 1 && |s0.actors| == c.workers + 1
    requires s0.actors[0] == Signalling(Stream, q, {}, Next) && s0.actors[1].Idle? && s0.queue == []
    ensures Reachable(c, s) && s == s0.(actors := s0.actors[0 := Idle], queue := [q])
  {
    ReachNext(c, s0, FinishSignals(0));
    var s1 := ApplyFinish(s0, 0);
    ReachNext(c, s1, Enqueue);
    s := Apply(c, s1, Enqueue);
    assert s.actors == s0.actors[0 := Idle];
  }

  /** A worker runs q to completion and starts signalling its state. */
  lemma StarRunQ(c: Config, q: TaskId, s0: Sys) returns (s: Sys)
    requires Reachable(c, s0) && c.workers >= 1 && |s0.actors| == c.workers + 1
    requires s0.actors[1].Idle? && s0.queue == [q]
    requires q in s0.status && s0.status[q] == Running
    ensures Reachable(c, s)
    ensures s == s0.(status := s0.status[q := Completed], queue := [],
                     actors := s0.actors[1 := Signalling(State, q, c.g.RequiredBy(q), Next)])
  {
    ReachNext(c, s0, Take(1));
    var s1 := ApplyTake(s0, 1);
    assert s1.queue == [];
    ReachNext(c, s1, Complete(1, Completed, false));
    s := ApplyComplete(c, s1, 1, Completed, false);
    assert s.actors == s0.actors[1 := Signalling(State, q, c.g.RequiredBy(q), Next)];
  }

  /** The scheduler dispatches p while a worker still signals for q. */
  lemma StarDispatchP(c: Config, p: TaskId, q: TaskId, cs: seq<TaskId>, s0: Sys) returns (s: Sys)
    requires Reachable(c, s0) && |s0.actors| >= 2 && Untouched(s0, cs, 0) && s0.ready == [p]
    requires s0.actors[0].Idle? && s0.actors[1] == Signalling(State, q, Elements(cs), Next)
    requires c.g.RequiredBy(p) == Elements(cs) && p !in s0.dispatched && p in s0.status && s0.status[p] == Pending
    ensures Round(c, s, p, q, cs, 0)
  {
    ReachNext(c, s0, Receive);
    s := ApplyReceive(c, s0);
    assert cs[0..] == cs;
  }

  /** q runs to completion before p is dispatched. */
  lemma StarStart(c: Config, p: TaskId, q: TaskId, cs: seq<TaskId>) returns (s: Sys)
    requires IsStar(c, p, q, cs)
    ensures Round(c, s, p, q, cs, 0)
  {
    StarRequiredBy(c, p, q, cs);
    var init := StarInitOk(c, p, q, cs);
    var s0 := StarDispatch(c, p, q, cs, init);
    var s1 := StarOffer(c, p, q, cs, s0);
    var s2 := StarQueueQ(c, q, s1);
    var s3 := StarRunQ(c, q, s2);
    s := StarDispatchP(c, p, q, cs, s3);
  }

  /**
   With at least three two-kind tasks more than workers the engine can block for ever: in this
   playbook some run reaches a state from which, on every continuation, no task of cs is dispatched.
   */
  lemma ManyTwoKindTasksCanBlock(c: Config, p: TaskId, q: TaskId, cs: seq<TaskId>) returns (s: Sys)
    requires IsStar(c, p, q, cs) && |cs| >= c.workers + 3
    ensures |BothKinds(c.g)| == |cs| && Reachable(c, s) && SchedulerBlocked(c, s)
    ensures forall run :: IsRun(c, s, run) ==>
      SchedulerBlocked(c, After(c, s, run)) && After(c, s, run).dispatched == s.dispatched
  {
    StarRequiredBy(c, p, q, cs);
    NoDupElements(cs);
    assert c.g.nodes == Elements(cs) + {p, q};
    assert |c.g.nodes| == |cs| + 2;
    var s0 := StarStart(c, p, q, cs);
    s := RoundsBlock(c, s0, p, q, cs, 0);
    forall run | IsRun(c, s, run)
      ensures SchedulerBlocked(c, After(c, s, run)) && After(c, s, run).dispatched == s.dispatched
    {
      BlockedForever(c, s, run);
    }
  }

  // ---- The exact number ----

  /**
   The engine as it is made for a playbook that graph building accepts, with w workers and k tasks that
   have both kinds of producers.
   */
  ghost predicate EngineFor(c: Config, tasks: seq<Task>, w: nat, k: nat) {
    && Accepted(tasks) && c.g == DependencyGraph(tasks)
    && c.workers == w && c.readyCap == EngineCapacity(c.g, w) && |BothKinds(c.g)| == k
  }

  function Names(n: nat): seq<TaskId> {
    if n == 0 then [] else Names(n - 1) + [Letters(n)]
  }

  function Letters(n: nat): TaskId {
    seq(n, _ => 'c')
  }

  lemma {:induction false} NamesAreDistinct(n: nat)
    ensures |Names(n)| == n && NoDup(Names(n)) && forall i :: 0 <= i < n ==> Names(n)[i] == Letters(i + 1)
  {
    if n > 0 {
      NamesAreDistinct(n - 1);
      forall i, j | 0 <= i < j < n ensures Names(n)[i] != Names(n)[j] {
        assert |Names(n)[i]| == i + 1 && |Names(n)[j]| == j + 1;
      }
    }
  }

  lemma SomePlaybookBlocks(w: nat, k: nat) returns (c: Config, tasks: seq<Task>, s: Sys)
    requires w >= 1 && k >= w + 3
    ensures EngineFor(c, tasks, w, k) && Reachable(c, s) && SchedulerBlocked(c, s)
  {
    var cs := Names(k);
    NamesAreDistinct(k);
    forall i | 0 <= i < |cs| ensures cs[i] != "p" && cs[i] != "q" && cs[i] != "" {
      assert cs[i] == Letters(i + 1) && cs[i][0] == 'c';
    }
    StarHasShape("p", "q", cs);
    StarIsAccepted("p", "q", cs);
    tasks := StarTasks("p", "q", cs);
    var g := Star("p", "q", cs);
    c := Config(g, w, EngineCapacity(g, w), {});
    s := ManyTwoKindTasksCanBlock(c, "p", "q", cs);
  }

  /**
   For every number of workers and of two-kind tasks: the engine's scheduler never blocks on its own
   send, in any accepted playbook with these numbers, if and only if there are at most two more such
   tasks than workers.
   */
  lemma EngineNeverBlocksIff(w: nat, k: nat)
    requires w >= 1
    ensures (forall c, tasks, s :: EngineFor(c, tasks, w, k) && Reachable(c, s) ==> !SchedulerBlocked(c, s)) <==>
      k <= w + 2
  {
    if k <= w + 2 {
      forall c, tasks, s | EngineFor(c, tasks, w, k) && Reachable(c, s) ensures !SchedulerBlocked(c, s) {
        if IsSignalling(s, 0) && s.actors[0].phase.Send? { SchedulerNeverBlocks(c, s); }
      }
    } else {
      var c, tasks, s := SomePlaybookBlocks(w, k);
    }
  }

  /**
   Below that number the engine's own channel is enough: a clean run that can go no further has done
   every task, if every task that starts comes to its end and the scheduler stays in its loop.
   */
  lemma EngineRunsFinish(c: Config, tasks: seq<Task>, s: Sys, run: seq<Step>, k: nat)
    requires EngineFor(c, tasks, c.workers, k) && c.workers >= 1 && k <= c.workers + 2
    requires Init(c, s) && IsRun(c, s, run) && forall i :: 0 <= i < |run| ==> IsClean(run[i])
    requires Stuck(c, After(c, s, run))
    ensures var end := After(c, s, run);
      end.status.Keys == c.g.nodes && forall t :: t in end.status ==> end.status[t].Succeeded()
  {
    GraphIsWellFormed(tasks);
    CleanRunsFinish(c, s, run);
  }

  lemma GraphIsWellFormed(tasks: seq<Task>)
    ensures DependencyGraph(tasks).WellFormed()
  {
    IdsAreTasks(tasks);
  }

  lemma {:induction false} NoDupElements(cs: seq<TaskId>)
    requires NoDup(cs)
    ensures |Elements(cs)| == |cs|
  {
    if cs != [] {
      var init := cs[..|cs| - 1];
      assert cs == init + [cs[|cs| - 1]];
      NoDupElements(init);
      assert Elements(cs) == Elements(init) + {cs[|cs| - 1]};
    }
  }
}
