/** The streaming topology: one channel per consumer edge, and a wait group that holds each producer. */
module ChannelTopology {
  import opened Prelude
  import opened Graphs
  import opened Dag

  /** The index-th stream input of a consumer. */
  datatype Edge = Edge(consumer: TaskId, index: nat)

  /** A channel is made for one edge. */
  datatype Channel = Channel(edge: Edge, capacity: nat)

  class WaitGroup {
    var count: int

    constructor ()
      ensures count == 0
    {
      count := 0;
    }

    method Add(n: int)
      modifies this
      ensures count == old(count) + n
    {
      count := count + n;
    }
  }

  /** The registered edges, each with the id of its producer. */
  type Edges = map<Edge, TaskId>

  function EdgesTo(edges: Edges, p: TaskId): set<Edge> {
    set e | e in edges && edges[e] == p
  }

  lemma EdgesToStep(edges: Edges, e: Edge, p: TaskId, q: TaskId)
    requires e !in edges
    ensures EdgesTo(edges[e := p], q) == EdgesTo(edges, q) + if q == p then {e} else {}
  {
  }

  ghost predicate UniqueNames(tasks: map<TaskId, Task>) {
    forall a, b :: a in tasks && b in tasks && tasks[a].name == tasks[b].name != "" ==> a == b
  }

  ghost predicate IsProducer(tasks: map<TaskId, Task>, name: string, p: TaskId) {
    name != "" && p in tasks && tasks[p].name == name
  }

  ghost predicate Resolves(tasks: map<TaskId, Task>, name: string) {
    exists p :: IsProducer(tasks, name, p)
  }

  ghost predicate InputsResolve(tasks: map<TaskId, Task>, c: TaskId)
    requires c in tasks
  {
    forall i :: 0 <= i < |tasks[c].streamInputs| ==> Resolves(tasks, tasks[c].streamInputs[i])
  }

  ghost predicate ResolvedOutside(tasks: map<TaskId, Task>, todo: set<TaskId>) {
    forall c :: c in tasks && c !in todo ==> InputsResolve(tasks, c)
  }

  lemma ResolveMeans(tasks: map<TaskId, Task>, c: TaskId)
    requires c in tasks
    ensures InputsResolve(tasks, c) <==> forall name :: name in tasks[c].streamInputs ==>
      name != "" && exists p :: p in tasks && tasks[p].name == name
  {
    forall name ensures Resolves(tasks, name) <==> name != "" && exists p :: p in tasks && tasks[p].name == name {
      if p :| p in tasks && tasks[p].name == name && name != "" { assert IsProducer(tasks, name, p); }
    }
    assert forall i :: 0 <= i < |tasks[c].streamInputs| ==> tasks[c].streamInputs[i] in tasks[c].streamInputs;
  }

  lemma AllResolve(tasks: map<TaskId, Task>)
    ensures ResolvedOutside(tasks, {}) <==> forall c, name :: c in tasks && name in tasks[c].streamInputs ==>
      name != "" && exists p :: p in tasks && tasks[p].name == name
  {
    forall c | c in tasks
      ensures InputsResolve(tasks, c) <==> forall name :: name in tasks[c].streamInputs ==>
        name != "" && exists p :: p in tasks && tasks[p].name == name
    {
      ResolveMeans(tasks, c);
    }
  }

  lemma ResolvedStep(tasks: map<TaskId, Task>, todo: set<TaskId>, c: TaskId)
    requires ResolvedOutside(tasks, todo) && c in tasks && InputsResolve(tasks, c)
    ensures ResolvedOutside(tasks, todo - {c})
  {
  }

  predicate IsInput(tasks: map<TaskId, Task>, e: Edge) {
    e.consumer in tasks && e.index < |tasks[e.consumer].streamInputs|
  }

  /**
   The edges are those of the tasks outside todo, plus the first n inputs of one more task; each leads
   from the task it names.
   */
  ghost predicate EdgesSoFar(tasks: map<TaskId, Task>, edges: Edges, todo: set<TaskId>, c: TaskId, n: nat) {
    && (forall e :: e in edges <==> IsInput(tasks, e) && (e.consumer !in todo || (e.consumer == c && e.index < n)))
    && forall e :: e in edges ==> IsProducer(tasks, tasks[e.consumer].streamInputs[e.index], edges[e])
  }

  /** One edge for every stream input of every task, from the task it names. */
  ghost predicate AllEdges(tasks: map<TaskId, Task>, edges: Edges) {
    && (forall e :: e in edges <==> IsInput(tasks, e))
    && forall e :: e in edges ==> IsProducer(tasks, tasks[e.consumer].streamInputs[e.index], edges[e])
  }

  // ---- What the four maps say, one producer and one consumer at a time ----

  /** The wait groups: one object for every producer that has an edge. */
  ghost predicate GroupsOk(edges: Edges, groups: map<TaskId, WaitGroup>) {
    && (forall p :: p in groups <==> EdgesTo(edges, p) != {})
    && forall p, q :: p in groups && q in groups && groups[p] == groups[q] ==> p == q
  }

  /** Each waits for the edges whose consumer has not returned. */
  ghost predicate CountsOk(edges: Edges, groups: map<TaskId, WaitGroup>, returned: set<TaskId>)
    reads groups.Values
  {
    forall p :: p in groups ==> groups[p].count == |Pending(edges, p, returned)|
  }

  function Pending(edges: Edges, p: TaskId, returned: set<TaskId>): set<Edge> {
    set e | e in EdgesTo(edges, p) && e.consumer !in returned
  }

  /** A producer writes to one channel per edge. */
  ghost predicate OutputsOk(edges: Edges, outputs: map<TaskId, seq<Channel>>, capacity: nat) {
    && (forall p :: p in outputs <==> EdgesTo(edges, p) != {})
    && forall p :: p in outputs ==> NoDup(outputs[p]) && forall ch :: ch in outputs[p] <==>
         ch.capacity == capacity && ch.edge in EdgesTo(edges, p)
  }

  /** A consumer signals the wait group of each of its edges. */
  ghost predicate SignalsOk(edges: Edges, groups: map<TaskId, WaitGroup>, signals: map<TaskId, seq<WaitGroup>>) {
    && (forall e :: e in edges <==> e.consumer in signals && e.index < |signals[e.consumer]|)
    && forall e :: e in edges ==> edges[e] in groups && signals[e.consumer][e.index] == groups[edges[e]]
  }

  /** A consumer reads, for each producer, the channel of its last edge from it. */
  ghost predicate InputsOk(edges: Edges, inputs: map<TaskId, map<TaskId, Channel>>, capacity: nat) {
    && (forall e :: e in edges ==> e.consumer in inputs && edges[e] in inputs[e.consumer])
    && forall c, p :: c in inputs && p in inputs[c] ==> InputOk(edges, inputs[c][p], c, p, capacity)
  }

  ghost predicate InputOk(edges: Edges, ch: Channel, c: TaskId, p: TaskId, capacity: nat) {
    && ch.capacity == capacity && ch.edge.consumer == c && ch.edge in edges && edges[ch.edge] == p
    && forall e :: e in edges && edges[e] == p && e.consumer == c ==> e.index <= ch.edge.index
  }

  lemma OutputsStep(edges: Edges, outputs: map<TaskId, seq<Channel>>, capacity: nat, e: Edge, p: TaskId)
    requires OutputsOk(edges, outputs, capacity) && e !in edges
    ensures var list := if p in outputs then outputs[p] else [];
      OutputsOk(edges[e := p], outputs[p := list + [Channel(e, capacity)]], capacity)
  {
    var list := if p in outputs then outputs[p] else [];
    forall q
      ensures EdgesTo(edges[e := p], q) == EdgesTo(edges, q) + (if q == p then {e} else {})
    {
      EdgesToStep(edges, e, p, q);
    }
    assert forall ch :: ch in list ==> ch.edge in EdgesTo(edges, p);
  }

  lemma InputsStep(edges: Edges, inputs: map<TaskId, map<TaskId, Channel>>, capacity: nat, e: Edge, p: TaskId)
    requires InputsOk(edges, inputs, capacity) && e !in edges && e.consumer in inputs
    requires forall d :: d in edges && d.consumer == e.consumer ==> d.index < e.index
    ensures InputsOk(edges[e := p], inputs[e.consumer := inputs[e.consumer][p := Channel(e, capacity)]], capacity)
  {
  }

  lemma GroupsStep(edges: Edges, groups: map<TaskId, WaitGroup>, e: Edge, p: TaskId, wg: WaitGroup)
    requires GroupsOk(edges, groups) && e !in edges
    requires if p in groups then wg == groups[p] else wg !in groups.Values
    ensures GroupsOk(edges[e := p], groups[p := wg]) && groups[p := wg].Values == groups.Values + {wg}
  {
    assert forall q :: q in groups && q != p ==> groups[p := wg][q] == groups[q];
    assert groups[p := wg][p] == wg;
    forall q
      ensures EdgesTo(edges[e := p], q) == EdgesTo(edges, q) + (if q == p then {e} else {})
    {
      EdgesToStep(edges, e, p, q);
    }
  }

  lemma PendingStep(edges: Edges, e: Edge, p: TaskId, q: TaskId)
    requires e !in edges
    ensures Pending(edges[e := p], q, {}) == Pending(edges, q, {}) + if q == p then {e} else {}
    ensures |Pending(edges[e := p], q, {})| == |Pending(edges, q, {})| + if q == p then 1 else 0
  {
    assert Pending(edges[e := p], q, {}) == Pending(edges, q, {}) + if q == p then {e} else {};
  }

  lemma SignalsStep(edges: Edges, groups: map<TaskId, WaitGroup>, signals: map<TaskId, seq<WaitGroup>>, e: Edge,
                    p: TaskId, wg: WaitGroup)
    requires SignalsOk(edges, groups, signals) && e !in edges && e.consumer in signals
    requires e.index == |signals[e.consumer]|
    requires p in groups ==> wg == groups[p]
    ensures SignalsOk(edges[e := p], groups[p := wg], signals[e.consumer := signals[e.consumer] + [wg]])
  {
  }

  /** The maps of the manager, and the edges registered in them. */
  datatype Topology = Topology(
    edges: Edges, groups: map<TaskId, WaitGroup>, outputs: map<TaskId, seq<Channel>>,
    inputs: map<TaskId, map<TaskId, Channel>>, signals: map<TaskId, seq<WaitGroup>>)

  ghost predicate TopologyOk(t: Topology, capacity: nat) {
    match t
    case Topology(edges, groups, outputs, inputs, signals) =>
      && GroupsOk(edges, groups) && OutputsOk(edges, outputs, capacity)
      && InputsOk(edges, inputs, capacity) && SignalsOk(edges, groups, signals)
  }

  /** Inputs of one consumer are registered in order. */
  ghost predicate CanAdd(t: Topology, e: Edge) {
    && e !in t.edges && e.consumer in t.inputs && e.consumer in t.signals && e.index == |t.signals[e.consumer]|
  }

  function WithEdge(t: Topology, e: Edge, p: TaskId, wg: WaitGroup, capacity: nat): Topology {
    Topology(
      t.edges[e := p],
      t.groups[p := wg],
      t.outputs[p := (if p in t.outputs then t.outputs[p] else []) + [Channel(e, capacity)]],
      t.inputs[e.consumer :=
        (if e.consumer in t.inputs then t.inputs[e.consumer] else map[])[p := Channel(e, capacity)]],
      t.signals[e.consumer := (if e.consumer in t.signals then t.signals[e.consumer] else []) + [wg]])
  }

  lemma WithEdgeOk(t: Topology, e: Edge, p: TaskId, wg: WaitGroup, capacity: nat)
    requires TopologyOk(t, capacity) && CanAdd(t, e)
    requires if p in t.groups then wg == t.groups[p] else wg !in t.groups.Values
    ensures TopologyOk(WithEdge(t, e, p, wg, capacity), capacity)
    ensures WithEdge(t, e, p, wg, capacity).groups.Values == t.groups.Values + {wg}
  {
    GroupsStep(t.edges, t.groups, e, p, wg);
    OutputsStep(t.edges, t.outputs, capacity, e, p);
    EarlierInputs(t, e);
    InputsStep(t.edges, t.inputs, capacity, e, p);
    SignalsStep(t.edges, t.groups, t.signals, e, p, wg);
  }

  lemma EarlierInputs(t: Topology, e: Edge)
    requires SignalsOk(t.edges, t.groups, t.signals) && CanAdd(t, e)
    ensures forall d :: d in t.edges && d.consumer == e.consumer ==> d.index < e.index
  {
  }

  function Opened(t: Topology, c: TaskId): Topology {
    t.(inputs := t.inputs[c := map[]], signals := t.signals[c := []])
  }

  lemma OpenedOk(t: Topology, c: TaskId, capacity: nat)
    requires TopologyOk(t, capacity) && c !in t.inputs && c !in t.signals
    ensures TopologyOk(Opened(t, c), capacity)
  {
  }

  lemma WithEdgeShape(t: Topology, e: Edge, p: TaskId, wg: WaitGroup, capacity: nat)
    requires CanAdd(t, e) && (p in t.groups ==> wg == t.groups[p])
    ensures var t' := WithEdge(t, e, p, wg, capacity);
      && t'.inputs.Keys == t.inputs.Keys && t'.signals.Keys == t.signals.Keys && |t'.signals[e.consumer]| == e.index + 1
      && t'.groups.Values == t.groups.Values + {wg}
  {
    var t' := WithEdge(t, e, p, wg, capacity);
    assert t'.groups[p] == wg;
    assert forall q :: q in t.groups ==> t'.groups[q] == t.groups[q] || q == p;
    assert forall q :: q in t.groups ==> t.groups[q] == t'.groups[q];
  }

  // ---- Topologies built step by step ----

  datatype Entry = Open(consumer: TaskId) | Register(edge: Edge, producer: TaskId, wg: WaitGroup)

  function Assembled(log: seq<Entry>, capacity: nat): Topology {
    if log == [] then Topology(map[], map[], map[], map[], map[])
    else
      var t := Assembled(log[..|log| - 1], capacity);
      match log[|log| - 1]
      case Open(c) => Opened(t, c)
      case Register(e, p, wg) => WithEdge(t, e, p, wg, capacity)
  }

  /** Consumers are opened once, and each producer gets one wait group. */
  ghost predicate InOrder(log: seq<Entry>, capacity: nat) {
    log == [] ||
    var init := log[..|log| - 1];
    InOrder(init, capacity) && CanFollow(Assembled(init, capacity), log[|log| - 1])
  }

  ghost predicate CanFollow(t: Topology, entry: Entry) {
    match entry
    case Open(c) => c !in t.inputs && c !in t.signals
    case Register(e, p, wg) => CanAdd(t, e) && if p in t.groups then wg == t.groups[p] else wg !in t.groups.Values
  }

  /** t is what the log builds. */
  ghost predicate Reached(log: seq<Entry>, t: Topology, capacity: nat) {
    InOrder(log, capacity) && Assembled(log, capacity) == t
  }

  lemma ReachedStep(log: seq<Entry>, t: Topology, capacity: nat, entry: Entry)
    requires Reached(log, t, capacity) && CanFollow(t, entry)
    ensures Reached(log + [entry], if entry.Open? then Opened(t, entry.consumer)
      else WithEdge(t, entry.edge, entry.producer, entry.wg, capacity), capacity)
  {
  }

  lemma {:induction false} AssembledOk(log: seq<Entry>, capacity: nat)
    requires InOrder(log, capacity)
    ensures TopologyOk(Assembled(log, capacity), capacity)
  {
    if log != [] {
      var init := log[..|log| - 1];
      AssembledOk(init, capacity);
      match log[|log| - 1]
      case Open(c) => OpenedOk(Assembled(init, capacity), c, capacity);
      case Register(e, p, wg) => WithEdgeOk(Assembled(init, capacity), e, p, wg, capacity);
    }
  }

  /** Every topology reached by opening consumers and registering their inputs is consistent. */
  lemma ReachedGroups(log: seq<Entry>, t: Topology, capacity: nat)
    requires Reached(log, t, capacity)
    ensures GroupsOk(t.edges, t.groups)
  {
    AssembledOk(log, capacity);
  }

  class ChannelManager {
    const bufferSize: nat
    var producerChannels: map<TaskId, seq<Channel>>
    var consumerProducerToChannel: map<TaskId, map<TaskId, Channel>>
    var producerWaitGroups: map<TaskId, WaitGroup>
    var consumerToProducerWGs: map<TaskId, seq<WaitGroup>>
    ghost var edges: Edges
    ghost var returned: set<TaskId>

    constructor (bufferSize: nat)
      ensures this.bufferSize == bufferSize && Valid() && edges == map[] && returned == {}
    {
      this.bufferSize := bufferSize;
      producerChannels, consumerProducerToChannel := map[], map[];
      producerWaitGroups, consumerToProducerWGs := map[], map[];
      edges, returned := map[], {};
    }

    ghost function Snapshot(): Topology
      reads this
    {
      Topology(edges, producerWaitGroups, producerChannels, consumerProducerToChannel, consumerToProducerWGs)
    }

    ghost predicate Valid()
      reads this, producerWaitGroups.Values
    {
      TopologyOk(Snapshot(), bufferSize) && CountsOk(edges, producerWaitGroups, returned)
    }

    /** A task with the given name, if there is one. */
    method FindNodeByName(tasks: map<TaskId, Task>, name: string) returns (id: Option<TaskId>)
      ensures id.Some? ==> IsProducer(tasks, name, id.value)
      ensures id.None? ==> !Resolves(tasks, name)
    {
      if name == "" {
        return None;
      }
      var todo := tasks.Keys;
      while todo != {}
        invariant todo <= tasks.Keys && forall t :: t in tasks && t !in todo ==> tasks[t].name != name
        decreases todo
      {
        var t :| t in todo;
        if tasks[t].name == name {
          return Some(t);
        }
        todo := todo - {t};
      }
      return None;
    }

    /** The wait group of a producer, made at its first edge, waits for one more edge. */
    method Expect(ghost e: Edge, p: TaskId) returns (wg: WaitGroup)
      requires GroupsOk(edges, producerWaitGroups) && CountsOk(edges, producerWaitGroups, {}) && e !in edges
      modifies this`producerWaitGroups, producerWaitGroups.Values
      ensures GroupsOk(edges[e := p], producerWaitGroups) && CountsOk(edges[e := p], producerWaitGroups, {})
      ensures producerWaitGroups == old(producerWaitGroups)[p := wg]
      ensures if p in old(producerWaitGroups) then wg == old(producerWaitGroups)[p] else fresh(wg)
    {
      if p !in producerWaitGroups {
        wg := new WaitGroup();
        assert EdgesTo(edges, p) == {};
      } else {
        wg := producerWaitGroups[p];
      }
      ghost var before := if p in producerWaitGroups then wg.count else 0;
      GroupsStep(edges, producerWaitGroups, e, p, wg);
      producerWaitGroups := producerWaitGroups[p := wg];
      wg.Add(1);
      forall q | q in producerWaitGroups ensures producerWaitGroups[q].count == |Pending(edges[e := p], q, {})| {
        PendingStep(edges, e, p, q);
      }
    }

    /** Registers one edge: the producer waits for it, and it gets a channel of its own. */
    method AddEdge(c: TaskId, i: nat, p: TaskId, ghost log: seq<Entry>, ghost t: Topology)
      returns (ghost log': seq<Entry>, ghost t': Topology, ghost wg: WaitGroup)
      requires t == Snapshot() && Reached(log, t, bufferSize) && CanAdd(t, Edge(c, i))
      requires CountsOk(edges, producerWaitGroups, {})
      modifies this, producerWaitGroups.Values
      ensures t' == Snapshot() && t' == WithEdge(t, Edge(c, i), p, wg, bufferSize) && Reached(log', t', bufferSize)
      ensures returned == old(returned) && CountsOk(edges, producerWaitGroups, {})
      ensures t'.inputs.Keys == t.inputs.Keys && t'.signals.Keys == t.signals.Keys && |t'.signals[c]| == i + 1
      ensures t'.edges == t.edges[Edge(c, i) := p] && fresh(t'.groups.Values - t.groups.Values)
    {
      ReachedGroups(log, t, bufferSize);
      wg := Wire(c, i, p, t);
      ReachedStep(log, t, bufferSize, Register(Edge(c, i), p, wg));
      log' := log + [Register(Edge(c, i), p, wg)];
      WithEdgeShape(t, Edge(c, i), p, wg, bufferSize);
      t' := WithEdge(t, Edge(c, i), p, wg, bufferSize);
    }

    /** The changes to the maps for one edge. */
    method Wire(c: TaskId, i: nat, p: TaskId, ghost t: Topology) returns (ghost wg: WaitGroup)
      requires t == Snapshot() && GroupsOk(t.edges, t.groups) && CanAdd(t, Edge(c, i))
      requires CountsOk(edges, producerWaitGroups, {})
      modifies this, producerWaitGroups.Values
      ensures Snapshot() == WithEdge(t, Edge(c, i), p, wg, bufferSize) && returned == old(returned)
      ensures CountsOk(edges, producerWaitGroups, {})
      ensures if p in t.groups then wg == t.groups[p] else fresh(wg)
    {
      var group := Expect(Edge(c, i), p);
      wg := group;
      consumerToProducerWGs := consumerToProducerWGs[c := consumerToProducerWGs[c] + [group]];
      var channel := Channel(Edge(c, i), bufferSize);
      var channels := if p in producerChannels then producerChannels[p] else [];
      producerChannels := producerChannels[p := channels + [channel]];
      consumerProducerToChannel := consumerProducerToChannel[c := consumerProducerToChannel[c][p := channel]];
      edges := edges[Edge(c, i) := p];
    }

    /** An empty list of inputs and signals for a consumer. */
    method OpenConsumer(c: TaskId, ghost log: seq<Entry>, ghost t: Topology)
      returns (ghost log': seq<Entry>, ghost t': Topology)
      requires t == Snapshot() && Reached(log, t, bufferSize) && c !in t.inputs && c !in t.signals
      modifies this`consumerProducerToChannel, this`consumerToProducerWGs
      ensures t' == Snapshot() && t' == Opened(t, c) && Reached(log', t', bufferSize)
      ensures t'.inputs.Keys == t.inputs.Keys + {c} && t'.signals.Keys == t.signals.Keys + {c} && t'.signals[c] == []
    {
      consumerProducerToChannel := consumerProducerToChannel[c := map[]];
      consumerToProducerWGs := consumerToProducerWGs[c := []];
      ReachedStep(log, t, bufferSize, Open(c));
      log', t' := log + [Open(c)], Opened(t, c);
    }

    /** Registers the i-th stream input of a consumer, if its name is that of a task. */
    method AddInput(tasks: map<TaskId, Task>, c: TaskId, i: nat, ghost todo: set<TaskId>, ghost log: seq<Entry>,
                    ghost t: Topology)
      returns (found: bool, ghost log': seq<Entry>, ghost t': Topology)
      requires c in todo && c in tasks && i < |tasks[c].streamInputs| && EdgesSoFar(tasks, t.edges, todo, c, i)
      requires t == Snapshot() && Reached(log, t, bufferSize) && c in t.inputs && c in t.signals && |t.signals[c]| == i
      requires CountsOk(edges, producerWaitGroups, {})
      modifies this, producerWaitGroups.Values
      ensures found <==> Resolves(tasks, tasks[c].streamInputs[i])
      ensures t' == Snapshot() && Reached(log', t', bufferSize) && CountsOk(edges, producerWaitGroups, {})
      ensures returned == old(returned)
      ensures t'.inputs.Keys == t.inputs.Keys && t'.signals.Keys == t.signals.Keys
      ensures fresh(t'.groups.Values - t.groups.Values)
      ensures found ==> |t'.signals[c]| == i + 1 && EdgesSoFar(tasks, t'.edges, todo, c, i + 1)
    {
      log', t' := log, t;
      var producer := FindNodeByName(tasks, tasks[c].streamInputs[i]);
      found := producer.Some?;
      if found {
        EdgesSoFarStep(tasks, t.edges, todo, c, i, producer.value);
        ghost var wg;
        log', t', wg := AddEdge(c, i, producer.value, log, t);
      }
    }

    /** Registers all stream inputs of one consumer, in order; stops at a name that no task has. */
    method AddInputs(tasks: map<TaskId, Task>, c: TaskId, ghost todo: set<TaskId>, ghost log: seq<Entry>,
                     ghost t: Topology)
      returns (ok: bool, ghost log': seq<Entry>, ghost t': Topology)
      requires c in todo && c in tasks && c in t.inputs && c in t.signals && t.signals[c] == []
      requires t == Snapshot() && Reached(log, t, bufferSize)
      requires CountsOk(edges, producerWaitGroups, {}) && EdgesSoFar(tasks, t.edges, todo, c, 0)
      modifies this, producerWaitGroups.Values
      ensures t' == Snapshot() && t'.inputs.Keys == t.inputs.Keys && t'.signals.Keys == t.signals.Keys
      ensures fresh(t'.groups.Values - t.groups.Values) && returned == old(returned)
      ensures ok <==> InputsResolve(tasks, c)
      ensures ok ==>
        && Reached(log', t', bufferSize) && CountsOk(edges, producerWaitGroups, {})
        && EdgesSoFar(tasks, t'.edges, todo - {c}, c, 0)
    {
      log', t' := log, t;
      for i := 0 to |tasks[c].streamInputs|
        invariant t' == Snapshot() && Reached(log', t', bufferSize) && CountsOk(edges, producerWaitGroups, {})
        invariant t'.inputs.Keys == t.inputs.Keys && t'.signals.Keys == t.signals.Keys && returned == old(returned)
        invariant |t'.signals[c]| == i && EdgesSoFar(tasks, t'.edges, todo, c, i)
        invariant fresh(t'.groups.Values - t.groups.Values)
      {
        ok, log', t' := AddInput(tasks, c, i, todo, log', t');
        if !ok {
          assert !InputsResolve(tasks, c);
          return;
        }
      }
      EdgesSoFarDone(tasks, t'.edges, todo, c);
      ok := true;
    }

    /** The same for a consumer that is not registered yet. */
    method AddConsumer(tasks: map<TaskId, Task>, c: TaskId, ghost todo: set<TaskId>, ghost log: seq<Entry>,
                       ghost t: Topology)
      returns (ok: bool, ghost log': seq<Entry>, ghost t': Topology)
      requires c in todo && c in tasks && tasks[c].streamInputs != []
      requires t == Snapshot() && Reached(log, t, bufferSize) && c !in t.inputs && t.inputs.Keys == t.signals.Keys
      requires CountsOk(edges, producerWaitGroups, {}) && EdgesSoFar(tasks, t.edges, todo, c, 0)
      modifies this, producerWaitGroups.Values
      ensures fresh(producerWaitGroups.Values - old(producerWaitGroups.Values))
      ensures ok <==> InputsResolve(tasks, c)
      ensures ok ==>
        && t' == Snapshot() && Reached(log', t', bufferSize) && t'.inputs.Keys == t'.signals.Keys == t.inputs.Keys + {c}
        && CountsOk(edges, producerWaitGroups, {}) && EdgesSoFar(tasks, t'.edges, todo - {c}, c, 0)
        && returned == old(returned)
    {
      log', t' := OpenConsumer(c, log, t);
      ok, log', t' := AddInputs(tasks, c, todo, log', t');
    }

    /**
     Builds the topology of a graph. It fails exactly if some stream input names no task; otherwise
     there is one edge, with a channel and a wait of its own, for every stream input of every task.
     */
    method CreateChannels(tasks: map<TaskId, Task>) returns (ok: bool)
      modifies this
      ensures ok <==> forall c, name :: c in tasks && name in tasks[c].streamInputs ==>
        name != "" && exists p :: p in tasks && tasks[p].name == name
      ensures ok ==> Valid() && returned == {} && AllEdges(tasks, edges) && fresh(producerWaitGroups.Values)
    {
      producerChannels, consumerProducerToChannel := map[], map[];
      producerWaitGroups, consumerToProducerWGs := map[], map[];
      edges, returned := map[], {};
      ghost var log, t := [], Snapshot();
      var todo := tasks.Keys;
      while todo != {}
        invariant todo <= tasks.Keys && t == Snapshot() && Reached(log, t, bufferSize)
        invariant CountsOk(edges, producerWaitGroups, {})
        invariant t.inputs.Keys == t.signals.Keys && t.inputs.Keys !! todo && returned == {} && fresh(t.groups.Values)
        invariant EdgesSoFar(tasks, t.edges, todo, "", 0)
        invariant ResolvedOutside(tasks, todo)
        decreases todo
      {
        var c :| c in todo;
        if tasks[c].streamInputs == [] {
          EdgesSoFarSkip(tasks, t.edges, todo, c);
        } else {
          var good;
          good, log, t := AddConsumer(tasks, c, todo, log, t);
          if !good {
            ResolveMeans(tasks, c);
            return false;
          }
        }
        ResolvedStep(tasks, todo, c);
        todo := todo - {c};
      }
      AssembledOk(log, bufferSize);
      AllResolve(tasks);
      ok := true;
    }

    /** A consumer that returns, whatever its outcome, is done with each of its producers. */
    method SignalProducers(c: TaskId)
      requires Valid() && c !in returned
      modifies this`returned, producerWaitGroups.Values
      ensures Valid() && returned == old(returned) + {c}
    {
      ghost var t := Snapshot();
      SignalAll(c);
      returned := returned + {c};
      assert Snapshot() == t;
    }

    /** One signal for each of the consumer's inputs. */
    method SignalAll(c: TaskId)
      requires GroupsOk(edges, producerWaitGroups) && SignalsOk(edges, producerWaitGroups, consumerToProducerWGs)
      requires CountsOk(edges, producerWaitGroups, returned) && c !in returned
      modifies producerWaitGroups.Values
      ensures Snapshot() == old(Snapshot()) && returned == old(returned)
      ensures CountsOk(edges, producerWaitGroups, returned + {c})
    {
      SignalsOf(edges, producerWaitGroups, consumerToProducerWGs, c);
      NobodySignalled(edges, producerWaitGroups, returned, c);
      var wgs := if c in consumerToProducerWGs then consumerToProducerWGs[c] else [];
      DoneAll(wgs, edges, producerWaitGroups, returned, c);
      AllSignalled(edges, producerWaitGroups, returned, c, |wgs|);
    }
  }

  /** The wait groups of a consumer's edges, in order. */
  ghost predicate AreSignals(wgs: seq<WaitGroup>, edges: Edges, groups: map<TaskId, WaitGroup>, c: TaskId) {
    && (forall e :: e in edges && e.consumer == c ==> e.index < |wgs|)
    && forall i: nat :: i < |wgs| ==>
         Edge(c, i) in edges && edges[Edge(c, i)] in groups && wgs[i] == groups[edges[Edge(c, i)]]
  }

  lemma SignalsOf(edges: Edges, groups: map<TaskId, WaitGroup>, signals: map<TaskId, seq<WaitGroup>>, c: TaskId)
    requires SignalsOk(edges, groups, signals)
    ensures AreSignals(if c in signals then signals[c] else [], edges, groups, c)
  {
  }

  method DoneAll(wgs: seq<WaitGroup>, ghost edges: Edges, ghost groups: map<TaskId, WaitGroup>,
                 ghost returned: set<TaskId>, ghost c: TaskId)
    requires AreSignals(wgs, edges, groups, c) && GroupsOk(edges, groups) && c !in returned
    requires CountsWithout(edges, groups, returned, c, 0)
    modifies groups.Values
    ensures CountsWithout(edges, groups, returned, c, |wgs|)
  {
    for i := 0 to |wgs|
      invariant CountsWithout(edges, groups, returned, c, i)
    {
      DoneOne(wgs[i], edges, groups, returned, c, i);
    }
  }

  method DoneOne(wg: WaitGroup, ghost edges: Edges, ghost groups: map<TaskId, WaitGroup>, ghost returned: set<TaskId>,
                 ghost c: TaskId, ghost i: nat)
    requires Edge(c, i) in edges && edges[Edge(c, i)] in groups && wg == groups[edges[Edge(c, i)]]
    requires GroupsOk(edges, groups) && c !in returned && CountsWithout(edges, groups, returned, c, i)
    modifies groups.Values
    ensures CountsWithout(edges, groups, returned, c, i + 1)
  {
    forall p ensures PendingWithout(edges, p, returned, c, i + 1) ==
        PendingWithout(edges, p, returned, c, i) - (if p == edges[Edge(c, i)] then {Edge(c, i)} else {})
    {
      OneLess(edges, p, returned, c, i);
    }
    wg.Add(-1);
  }

  lemma NobodySignalled(edges: Edges, groups: map<TaskId, WaitGroup>, returned: set<TaskId>, c: TaskId)
    requires CountsOk(edges, groups, returned)
    ensures CountsWithout(edges, groups, returned, c, 0)
  {
    forall p | p in groups ensures PendingWithout(edges, p, returned, c, 0) == Pending(edges, p, returned) {}
  }

  lemma AllSignalled(edges: Edges, groups: map<TaskId, WaitGroup>, returned: set<TaskId>, c: TaskId, n: nat)
    requires CountsWithout(edges, groups, returned, c, n) && forall e :: e in edges && e.consumer == c ==> e.index < n
    ensures CountsOk(edges, groups, returned + {c})
  {
    forall p | p in groups ensures PendingWithout(edges, p, returned, c, n) == Pending(edges, p, returned + {c}) {}
  }

  /** The edges that still hold p back when c is signalling and has done its first i inputs. */
  function PendingWithout(edges: Edges, p: TaskId, returned: set<TaskId>, c: TaskId, i: nat): set<Edge> {
    set e | e in EdgesTo(edges, p) && e.consumer !in returned && !(e.consumer == c && e.index < i)
  }

  ghost predicate CountsWithout(edges: Edges, groups: map<TaskId, WaitGroup>, returned: set<TaskId>, c: TaskId, i: nat)
    reads groups.Values
  {
    forall p :: p in groups ==> groups[p].count == |PendingWithout(edges, p, returned, c, i)|
  }

  lemma OneLess(edges: Edges, p: TaskId, returned: set<TaskId>, c: TaskId, i: nat)
    requires Edge(c, i) in edges && c !in returned
    ensures PendingWithout(edges, p, returned, c, i + 1) ==
      PendingWithout(edges, p, returned, c, i) - (if p == edges[Edge(c, i)] then {Edge(c, i)} else {})
  {
  }

  /** A producer waits for as many consumer edges as it has channels; with nothing returned yet, for all of them. */
  lemma WaitsForEveryChannel(t: Topology, capacity: nat, p: TaskId)
    requires TopologyOk(t, capacity) && p in t.groups
    ensures p in t.outputs && |Pending(t.edges, p, {})| == |EdgesTo(t.edges, p)| == |t.outputs[p]| > 0
  {
    assert Pending(t.edges, p, {}) == EdgesTo(t.edges, p);
    EdgesOfChannels(t.outputs[p], EdgesTo(t.edges, p), capacity);
    assert EdgesTo(t.edges, p) != {};
  }

  lemma {:induction false} EdgesOfChannels(chs: seq<Channel>, es: set<Edge>, capacity: nat)
    requires NoDup(chs) && forall ch :: ch in chs <==> ch.capacity == capacity && ch.edge in es
    ensures |chs| == |es|
  {
    if chs == [] {
      assert forall e :: e in es ==> Channel(e, capacity) in chs;
    } else {
      var init, last := chs[..|chs| - 1], chs[|chs| - 1];
      assert chs == init + [last];
      EdgesOfChannels(init, es - {last.edge}, capacity);
      assert es == es - {last.edge} + {last.edge};
    }
  }

  /** The wait is over exactly when every consumer of the stream has returned; the count is never negative. */
  lemma WaitEndsWithLastConsumer(edges: Edges, groups: map<TaskId, WaitGroup>, returned: set<TaskId>, p: TaskId)
    requires CountsOk(edges, groups, returned) && p in groups
    ensures groups[p].count >= 0
    ensures groups[p].count == 0 <==> forall e :: e in EdgesTo(edges, p) ==> e.consumer in returned
  {
    var pending := Pending(edges, p, returned);
    assert |pending| == 0 <==> pending == {};
    if pending == {} {
      forall e | e in EdgesTo(edges, p) ensures e.consumer in returned { assert e !in pending; }
    }
  }

  /** With distinct stream inputs, each channel is read by the consumer it was made for. */
  lemma EveryChannelIsRead(t: Topology, capacity: nat, p: TaskId, ch: Channel)
    requires TopologyOk(t, capacity) && p in t.outputs && ch in t.outputs[p]
    ensures ch.edge.consumer in t.inputs && p in t.inputs[ch.edge.consumer]
    ensures t.inputs[ch.edge.consumer][p] == ch <==>
      forall e :: e in EdgesTo(t.edges, p) && e.consumer == ch.edge.consumer ==> e.index <= ch.edge.index
  {
    var c := ch.edge.consumer;
    assert ch.edge in EdgesTo(t.edges, p) && ch.capacity == capacity;
    assert InputOk(t.edges, t.inputs[c][p], c, p, capacity);
  }

  lemma EdgesSoFarStep(tasks: map<TaskId, Task>, edges: Edges, todo: set<TaskId>, c: TaskId, i: nat, p: TaskId)
    requires c in todo && c in tasks && i < |tasks[c].streamInputs| && EdgesSoFar(tasks, edges, todo, c, i)
    requires IsProducer(tasks, tasks[c].streamInputs[i], p)
    ensures Edge(c, i) !in edges && EdgesSoFar(tasks, edges[Edge(c, i) := p], todo, c, i + 1)
  {
  }

  lemma EdgesSoFarSkip(tasks: map<TaskId, Task>, edges: Edges, todo: set<TaskId>, c: TaskId)
    requires c in todo && c in tasks && tasks[c].streamInputs == [] && EdgesSoFar(tasks, edges, todo, "", 0)
    ensures EdgesSoFar(tasks, edges, todo - {c}, "", 0) && InputsResolve(tasks, c)
  {
  }

  lemma EdgesSoFarDone(tasks: map<TaskId, Task>, edges: Edges, todo: set<TaskId>, c: TaskId)
    requires c in todo && c in tasks && EdgesSoFar(tasks, edges, todo, c, |tasks[c].streamInputs|)
    ensures EdgesSoFar(tasks, edges, todo - {c}, c, 0) && InputsResolve(tasks, c)
  {
    forall i | 0 <= i < |tasks[c].streamInputs| ensures Resolves(tasks, tasks[c].streamInputs[i]) {
      assert Edge(c, i) in edges;
    }
  }

  // ---- The channels follow the dependency graph ----

  /** Every edge of c comes from the task that one of its inputs names. */
  lemma EdgeFollows(tasks: seq<Task>, edges: Edges, c: TaskId, e: Edge)
    requires DistinctIds(tasks) && UniqueNames(TasksById(tasks)) && AllEdges(TasksById(tasks), edges)
    requires c in TasksById(tasks) && e in edges && e.consumer == c
    ensures var inputs, names := TasksById(tasks)[c].streamInputs, NameToId(tasks);
      e.index < |inputs| && inputs[e.index] in names && names[inputs[e.index]] == edges[e]
  {
    var byId, names := TasksById(tasks), NameToId(tasks);
    var name := byId[c].streamInputs[e.index];
    IndexedTasks(tasks);
    IndexedNames(tasks);
    assert IsProducer(byId, name, edges[e]) && name in names;
    assert byId[names[name]].name == name;
  }

  /** And every input of c that names a task has its edge. */
  lemma InputFollows(tasks: seq<Task>, edges: Edges, c: TaskId, name: string)
    requires DistinctIds(tasks) && UniqueNames(TasksById(tasks)) && AllEdges(TasksById(tasks), edges)
    requires c in TasksById(tasks) && name in TasksById(tasks)[c].streamInputs && name in NameToId(tasks)
    ensures exists e :: e in edges && e.consumer == c && edges[e] == NameToId(tasks)[name]
  {
    var inputs := TasksById(tasks)[c].streamInputs;
    var i :| 0 <= i < |inputs| && inputs[i] == name;
    assert Edge(c, i) in edges;
    EdgeFollows(tasks, edges, c, Edge(c, i));
  }

  /** With names that are unique, channels run along exactly the stream edges of the dependency graph. */
  lemma ChannelsFollowGraph(tasks: seq<Task>, edges: Edges, c: TaskId)
    requires DistinctIds(tasks) && UniqueNames(TasksById(tasks)) && AllEdges(TasksById(tasks), edges)
    requires c in TasksById(tasks)
    ensures DependencyGraph(tasks).Deps(Stream, c) == set e | e in edges && e.consumer == c :: edges[e]
  {
    var inputs, names := TasksById(tasks)[c].streamInputs, NameToId(tasks);
    forall e | e in edges && e.consumer == c
      ensures e.index < |inputs| && inputs[e.index] in names && names[inputs[e.index]] == edges[e]
    {
      EdgeFollows(tasks, edges, c, e);
    }
    forall name | name in inputs && name in names
      ensures exists e :: e in edges && e.consumer == c && edges[e] == names[name]
    {
      InputFollows(tasks, edges, c, name);
    }
  }
}
