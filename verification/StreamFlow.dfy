/**
 Streaming tasks on a pool of workers: when do they come to their end? A task is dispatched once its
 stream producers are dispatched and the tasks whose state it waits for have ended; workers take the
 dispatched tasks from the work queue in order. A task without inputs produces records. A join reads
 its late input only after all its other inputs are closed and empty, and may write any number of
 records for each record of it. Any other task reads all its inputs at once, and passes every record
 it receives on to all its outputs. Channels are bounded; a task that ends closes its outputs, and a
 task that is skipped neither reads its inputs nor closes its outputs. Nothing fails.
 */
module StreamFlow {
  import opened Prelude
  import opened Graphs
  import opened ChannelTopology

  function Position(tasks: seq<TaskId>, t: TaskId): (i: nat)
    ensures i <= |tasks|
  {
    if tasks == [] || tasks[0] == t then 0 else 1 + Position(tasks[1..], t)
  }

  /**
   What the tasks do: outs are a task's output channels in the order in which it writes to them, waits
   the tasks whose state it waits for, late the channels that joins read last. The sequence tasks lists
   all tasks in a topological order; they are dispatched in any order that the dependencies allow.
   */
  datatype Flow = Flow(tasks: seq<TaskId>, edges: Edges, outs: map<TaskId, seq<Edge>>, waits: map<TaskId, set<TaskId>>,
                       late: set<Edge>, supply: map<TaskId, nat>, skipped: set<TaskId>, capacity: nat, workers: nat)
  {
    predicate IsInput(t: TaskId, e: Edge) { e in edges && e.consumer == t }

    ghost predicate IsSource(t: TaskId) { forall e :: !IsInput(t, e) }

    predicate IsEarly(t: TaskId, e: Edge) { IsInput(t, e) && e !in late }

    ghost predicate IsJoin(t: TaskId) { exists e :: IsInput(t, e) && e in late }

    predicate Waits(t: TaskId, x: TaskId) { t in waits && x in waits[t] }

    predicate Before(a: TaskId, b: TaskId) {
      a in tasks && b in tasks && Position(tasks, a) < Position(tasks, b)
    }

    ghost predicate Valid() {
      && outs.Keys == Elements(tasks) && supply.Keys == Elements(tasks)
      && (forall e :: e in edges ==> Before(edges[e], e.consumer))
      && (forall t, x :: Waits(t, x) ==> Before(x, t))
      && forall t :: t in outs ==> NoDup(outs[t]) && forall e :: e in outs[t] <==> e in edges && edges[e] == t
    }

    /** What t may write after it has received a record from its input e. */
    ghost predicate MayWrite(t: TaskId, e: Edge, w: seq<Edge>) {
      && t in outs
      && if e in late then forall d :: d in w ==> d in outs[t] else w == if IsJoin(t) then [] else outs[t]
    }
  }

  datatype Mode = Pending | Queued | Reading | Writing(rest: seq<Edge>) | Ended {
    predicate Executing() { Reading? || Writing? }
  }

  /** sent is history: how many records were written to each channel. */
  datatype Sys = Sys(mode: map<TaskId, Mode>, queue: seq<TaskId>, buffered: map<Edge, nat>, sent: map<Edge, nat>,
                     closed: set<Edge>, left: map<TaskId, nat>)

  datatype Step =
    | Dispatch(t: TaskId)
    | Take                                        // a free worker takes the next task
    | Produce(t: TaskId)
    | Receive(t: TaskId, e: Edge, w: seq<Edge>)
    | Put(t: TaskId)                              // into the buffer
    | HandOver(t: TaskId, w: seq<Edge>)           // to a consumer that waits at the empty channel
    | Written(t: TaskId)
    | Flush(t: TaskId, w: seq<Edge>)              // what a join writes after its inputs are over
    | End(t: TaskId)

  function Busy(s: Sys): set<TaskId> {
    set t | t in s.mode && s.mode[t].Executing()
  }

  predicate HasEnded(s: Sys, t: TaskId) {
    t in s.mode && s.mode[t].Ended?
  }

  predicate Started(s: Sys, t: TaskId) {
    t in s.mode && !s.mode[t].Pending?
  }

  predicate Writes(s: Sys, t: TaskId) {
    t in s.mode && s.mode[t].Writing? && s.mode[t].rest != []
  }

  predicate Reads(s: Sys, t: TaskId) {
    t in s.mode && s.mode[t].Reading?
  }

  predicate IsOver(s: Sys, e: Edge) {
    e in s.closed && e in s.buffered && s.buffered[e] == 0
  }

  ghost predicate InputsOver(f: Flow, s: Sys, t: TaskId) {
    forall e :: f.IsInput(t, e) ==> IsOver(s, e)
  }

  /** A task that reads at all reads its input e now: only late inputs have to wait. */
  ghost predicate IsOpen(f: Flow, s: Sys, e: Edge) {
    e in f.late ==> forall d :: f.IsEarly(e.consumer, d) ==> IsOver(s, d)
  }

  /** All that t waits for has happened. */
  ghost predicate CanStart(f: Flow, s: Sys, t: TaskId) {
    && (forall e :: f.IsInput(t, e) ==> Started(s, f.edges[e]))
    && forall x :: f.Waits(t, x) ==> HasEnded(s, x)
  }

  ghost predicate Enabled(f: Flow, s: Sys, step: Step) {
    match step
    case Dispatch(t) => t in s.mode && s.mode[t].Pending? && CanStart(f, s, t)
    case Take => s.queue != [] && |Busy(s)| < f.workers
    case Produce(t) => Reads(s, t) && f.IsSource(t) && t in s.left && s.left[t] > 0 && t in f.outs
    case Receive(t, e, w) =>
      Reads(s, t) && f.IsInput(t, e) && IsOpen(f, s, e) && e in s.buffered && s.buffered[e] > 0 && f.MayWrite(t, e, w)
    case Put(t) =>
      Writes(s, t) && var e := s.mode[t].rest[0]; e in s.buffered && e in s.sent && s.buffered[e] < f.capacity
    case HandOver(t, w) =>
      && Writes(s, t)
      && var e := s.mode[t].rest[0];
         && e in s.buffered && e in s.sent && s.buffered[e] == 0 && e in f.edges && e.consumer != t
         && Reads(s, e.consumer) && IsOpen(f, s, e) && f.MayWrite(e.consumer, e, w)
    case Written(t) => t in s.mode && s.mode[t] == Writing([])
    case Flush(t, w) =>
      Reads(s, t) && f.IsJoin(t) && InputsOver(f, s, t) && t in f.outs && forall d :: d in w ==> d in f.outs[t]
    case End(t) =>
      Reads(s, t) && t in f.outs && InputsOver(f, s, t) && (f.IsSource(t) ==> t in s.left && s.left[t] == 0)
  }

  ghost function Apply(f: Flow, s: Sys, step: Step): Sys
    requires Enabled(f, s, step)
  {
    match step
    case Dispatch(t) => s.(mode := s.mode[t := Queued], queue := s.queue + [t])
    case Take =>
      s.(queue := s.queue[1..], mode := s.mode[s.queue[0] := if s.queue[0] in f.skipped then Ended else Reading])
    case Produce(t) => s.(left := s.left[t := s.left[t] - 1], mode := s.mode[t := Writing(f.outs[t])])
    case Receive(t, e, w) => s.(buffered := s.buffered[e := s.buffered[e] - 1], mode := s.mode[t := Writing(w)])
    case Put(t) =>
      var rest := s.mode[t].rest;
      s.(buffered := s.buffered[rest[0] := s.buffered[rest[0]] + 1], sent := s.sent[rest[0] := s.sent[rest[0]] + 1],
         mode := s.mode[t := Writing(rest[1..])])
    case HandOver(t, w) =>
      var rest := s.mode[t].rest;
      s.(sent := s.sent[rest[0] := s.sent[rest[0]] + 1],
         mode := s.mode[t := Writing(rest[1..])][rest[0].consumer := Writing(w)])
    case Written(t) => s.(mode := s.mode[t := Reading])
    case Flush(t, w) => s.(mode := s.mode[t := Writing(w)])
    case End(t) => s.(mode := s.mode[t := Ended], closed := s.closed + Elements(f.outs[t]))
  }

  function Start(f: Flow): Sys {
    Sys(map t | t in f.tasks :: Pending, [], map e | e in f.edges :: 0, map e | e in f.edges :: 0, {}, f.supply)
  }

  ghost predicate IsRun(f: Flow, s: Sys, run: seq<Step>)
    decreases |run|
  {
    run == [] || (Enabled(f, s, run[0]) && IsRun(f, Apply(f, s, run[0]), run[1..]))
  }

  ghost function After(f: Flow, s: Sys, run: seq<Step>): Sys
    requires IsRun(f, s, run)
    decreases |run|
  {
    if run == [] then s else After(f, Apply(f, s, run[0]), run[1..])
  }

  // ---- What every step keeps ----

  ghost predicate KeysOk(f: Flow, s: Sys) {
    && s.mode.Keys == Elements(f.tasks) && s.left.Keys == Elements(f.tasks)
    && s.buffered.Keys == f.edges.Keys && s.sent.Keys == f.edges.Keys
  }

  ghost predicate QueueOk(s: Sys) {
    NoDup(s.queue) && forall t :: t in s.queue <==> t in s.mode && s.mode[t].Queued?
  }

  /** What a task waits for has happened when it is dispatched. */
  ghost predicate GatesOk(f: Flow, s: Sys) {
    forall t :: Started(s, t) ==> CanStart(f, s, t)
  }

  ghost predicate Ahead(queue: seq<TaskId>, a: TaskId, b: TaskId) {
    exists i, j :: 0 <= i < j < |queue| && queue[i] == a && queue[j] == b
  }

  /** While a producer is queued its consumers are not yet dispatched, or queued behind it. */
  ghost predicate OrderOk(f: Flow, s: Sys) {
    forall e :: e in f.edges && f.edges[e] in s.queue ==>
      !Started(s, e.consumer) || Ahead(s.queue, f.edges[e], e.consumer)
  }

  ghost predicate ModesOk(f: Flow, s: Sys) {
    && (forall t :: t in s.mode && s.mode[t].Executing() ==> t !in f.skipped)
    && forall t, e :: t in s.mode && s.mode[t].Writing? && e in s.mode[t].rest ==> e in f.edges && f.edges[e] == t
  }

  /** A channel is closed exactly if its producer has ended without being skipped; it is never over-full. */
  ghost predicate ChannelsOk(f: Flow, s: Sys) {
    && (forall e :: e in f.edges ==> (e in s.closed <==> HasEnded(s, f.edges[e]) && f.edges[e] !in f.skipped))
    && forall e :: e in s.buffered ==> s.buffered[e] <= f.capacity
  }

  /** A task that has ended and was not skipped has drained its inputs, and has produced all that it had to. */
  ghost predicate EndsOk(f: Flow, s: Sys) {
    forall t :: HasEnded(s, t) && t !in f.skipped ==>
      InputsOver(f, s, t) && (f.IsSource(t) ==> t in s.left && s.left[t] == 0)
  }

  ghost predicate Inv(f: Flow, s: Sys) {
    && f.Valid() && KeysOk(f, s) && QueueOk(s) && GatesOk(f, s) && OrderOk(f, s) && ModesOk(f, s)
    && ChannelsOk(f, s) && EndsOk(f, s) && |Busy(s)| <= f.workers
  }

  lemma StartInv(f: Flow)
    requires f.Valid()
    ensures Inv(f, Start(f))
  {
    assert Busy(Start(f)) == {};
  }

  lemma QueueHead(s: Sys)
    requires QueueOk(s) && s.queue != []
    ensures s.queue[0] in s.mode && s.mode[s.queue[0]].Queued?
  {
    assert s.queue[0] in s.queue;
  }

  lemma StepKeys(f: Flow, s: Sys, step: Step)
    requires KeysOk(f, s) && QueueOk(s) && Enabled(f, s, step)
    ensures KeysOk(f, Apply(f, s, step))
  {
    if step.Take? { QueueHead(s); }
    var s' := Apply(f, s, step);
    assert s'.mode.Keys == s.mode.Keys && s'.left.Keys == s.left.Keys;
  }

  /** Only dispatching and taking touch the queue, and no other step makes a task queued or pending. */
  lemma OtherQueue(f: Flow, s: Sys, step: Step)
    requires Enabled(f, s, step) && !step.Dispatch? && !step.Take?
    ensures var s' := Apply(f, s, step);
      && s'.queue == s.queue && s'.mode.Keys == s.mode.Keys
      && forall t :: t in s.mode ==>
           (s'.mode[t].Queued? <==> s.mode[t].Queued?) && (s'.mode[t].Pending? <==> s.mode[t].Pending?)
  {
  }

  lemma StepQueue(f: Flow, s: Sys, step: Step)
    requires QueueOk(s) && Enabled(f, s, step)
    ensures QueueOk(Apply(f, s, step))
  {
    match step
    case Dispatch(t) => NoDupAppend(s.queue, [t]);
    case Take => assert forall t :: t in s.queue <==> t == s.queue[0] || t in s.queue[1..];
    case _ => OtherQueue(f, s, step);
  }

  /** What has started stays so, and what has ended too. */
  lemma StepGrows(f: Flow, s: Sys, step: Step, t: TaskId)
    requires QueueOk(s) && Enabled(f, s, step)
    ensures Started(s, t) ==> Started(Apply(f, s, step), t)
    ensures HasEnded(s, t) ==> HasEnded(Apply(f, s, step), t)
    ensures Started(Apply(f, s, step), t) && !Started(s, t) ==> step == Dispatch(t)
  {
    if step.Take? { QueueHead(s); }
  }

  lemma StepGates(f: Flow, s: Sys, step: Step)
    requires QueueOk(s) && GatesOk(f, s) && Enabled(f, s, step)
    ensures GatesOk(f, Apply(f, s, step))
  {
    var s' := Apply(f, s, step);
    forall t | Started(s', t) ensures CanStart(f, s', t) {
      StepGrows(f, s, step, t);
      assert CanStart(f, s, t);
      forall e | f.IsInput(t, e) ensures Started(s', f.edges[e]) { StepGrows(f, s, step, f.edges[e]); }
      forall x | f.Waits(t, x) ensures HasEnded(s', x) { StepGrows(f, s, step, x); }
    }
  }

  lemma AheadOf(queue: seq<TaskId>, a: TaskId, b: TaskId, more: seq<TaskId>)
    requires Ahead(queue, a, b)
    ensures Ahead(queue + more, a, b)
    ensures NoDup(queue) && a != queue[0] ==> Ahead(queue[1..], a, b)
  {
    var i, j :| 0 <= i < j < |queue| && queue[i] == a && queue[j] == b;
    assert (queue + more)[i] == a && (queue + more)[j] == b;
    if a != queue[0] { assert queue[1..][i - 1] == a && queue[1..][j - 1] == b; }
  }

  lemma DispatchOrder(f: Flow, s: Sys, t: TaskId, e: Edge)
    requires f.Valid() && QueueOk(s) && GatesOk(f, s) && OrderOk(f, s) && Enabled(f, s, Dispatch(t)) && e in f.edges
    ensures var s' := Apply(f, s, Dispatch(t));
      f.edges[e] in s'.queue ==> !Started(s', e.consumer) || Ahead(s'.queue, f.edges[e], e.consumer)
  {
    var p, c := f.edges[e], e.consumer;
    assert f.Before(p, c);
    if p == t {
      assert Started(s, c) ==> Started(s, p) by { if Started(s, c) { assert CanStart(f, s, c) && f.IsInput(c, e); } }
    } else if p in s.queue && c == t {
      var i :| 0 <= i < |s.queue| && s.queue[i] == p;
      assert (s.queue + [t])[i] == p && (s.queue + [t])[|s.queue|] == t;
    } else if p in s.queue && Started(s, c) {
      AheadOf(s.queue, p, c, [t]);
    }
  }

  lemma StepOrder(f: Flow, s: Sys, step: Step)
    requires f.Valid() && QueueOk(s) && GatesOk(f, s) && OrderOk(f, s) && Enabled(f, s, step)
    ensures OrderOk(f, Apply(f, s, step))
  {
    var s' := Apply(f, s, step);
    forall e | e in f.edges && f.edges[e] in s'.queue
      ensures !Started(s', e.consumer) || Ahead(s'.queue, f.edges[e], e.consumer)
    {
      match step
      case Dispatch(t) => DispatchOrder(f, s, t, e);
      case Take =>
        QueueHead(s);
        assert f.edges[e] in s.queue && f.edges[e] != s.queue[0];
        if Started(s, e.consumer) { AheadOf(s.queue, f.edges[e], e.consumer, []); }
      case _ => OtherQueue(f, s, step);
    }
  }

  /** What a step lets a task write goes to its own outputs. */
  lemma StepModes(f: Flow, s: Sys, step: Step)
    requires ModesOk(f, s) && f.Valid() && Enabled(f, s, step)
    ensures ModesOk(f, Apply(f, s, step))
  {
    var s' := Apply(f, s, step);
    forall t, e | t in s'.mode && s'.mode[t].Writing? && e in s'.mode[t].rest ensures e in f.edges && f.edges[e] == t {
      RestOk(f, s, step, t, e);
    }
  }

  lemma RestOk(f: Flow, s: Sys, step: Step, t: TaskId, e: Edge)
    requires ModesOk(f, s) && Enabled(f, s, step)
    requires forall t :: t in f.outs ==> forall e :: e in f.outs[t] <==> e in f.edges && f.edges[e] == t
    requires var s' := Apply(f, s, step); t in s'.mode && s'.mode[t].Writing? && e in s'.mode[t].rest
    ensures e in f.edges && f.edges[e] == t
  {
  }

  /** Tasks end by their own last step, or when they are taken if they are skipped. */
  lemma StepEnded(f: Flow, s: Sys, step: Step, t: TaskId)
    requires Enabled(f, s, step) && QueueOk(s)
    ensures HasEnded(Apply(f, s, step), t) <==>
      HasEnded(s, t) || step == End(t) || (step.Take? && t == s.queue[0] && t in f.skipped)
  {
    if step.Take? { QueueHead(s); }
  }

  lemma StepClosed(f: Flow, s: Sys, step: Step, e: Edge)
    requires Enabled(f, s, step) && f.Valid() && ModesOk(f, s) && QueueOk(s) && e in f.edges
    requires e in s.closed <==> HasEnded(s, f.edges[e]) && f.edges[e] !in f.skipped
    ensures var s' := Apply(f, s, step); e in s'.closed <==> HasEnded(s', f.edges[e]) && f.edges[e] !in f.skipped
  {
    StepEnded(f, s, step, f.edges[e]);
    if step.End? { assert e in f.outs[step.t] <==> f.edges[e] == step.t; }
  }

  lemma StepBuffers(f: Flow, s: Sys, step: Step)
    requires Enabled(f, s, step) && forall e :: e in s.buffered ==> s.buffered[e] <= f.capacity
    ensures var s' := Apply(f, s, step); forall e :: e in s'.buffered ==> s'.buffered[e] <= f.capacity
  {
  }

  lemma StepChannels(f: Flow, s: Sys, step: Step)
    requires ChannelsOk(f, s) && ModesOk(f, s) && QueueOk(s) && f.Valid() && Enabled(f, s, step)
    ensures ChannelsOk(f, Apply(f, s, step))
  {
    var s' := Apply(f, s, step);
    StepBuffers(f, s, step);
    forall e | e in f.edges ensures e in s'.closed <==> HasEnded(s', f.edges[e]) && f.edges[e] !in f.skipped {
      StepClosed(f, s, step, e);
    }
  }

  /** What is over stays over: nobody writes to a channel whose producer has ended. */
  lemma StepOver(f: Flow, s: Sys, step: Step, e: Edge)
    requires ChannelsOk(f, s) && ModesOk(f, s) && Enabled(f, s, step) && e in f.edges && IsOver(s, e)
    ensures IsOver(Apply(f, s, step), e)
  {
    if step.Put? || step.HandOver? { assert s.mode[step.t].rest[0] in s.mode[step.t].rest; }
  }

  lemma StepEnds(f: Flow, s: Sys, step: Step)
    requires EndsOk(f, s) && ChannelsOk(f, s) && ModesOk(f, s) && QueueOk(s) && Enabled(f, s, step)
    ensures EndsOk(f, Apply(f, s, step))
  {
    var s' := Apply(f, s, step);
    forall t | HasEnded(s', t) && t !in f.skipped
      ensures InputsOver(f, s', t) && (f.IsSource(t) ==> t in s'.left && s'.left[t] == 0)
    {
      StepEnded(f, s, step, t);
      assert InputsOver(f, s, t);
      forall e | f.IsInput(t, e) ensures IsOver(s', e) { StepOver(f, s, step, e); }
    }
  }

  lemma StepBusy(f: Flow, s: Sys, step: Step)
    requires Enabled(f, s, step) && |Busy(s)| <= f.workers
    ensures |Busy(Apply(f, s, step))| <= f.workers
  {
    var s' := Apply(f, s, step);
    var more := if step.Take? then {s.queue[0]} else {};
    assert Busy(s') <= Busy(s) + more;
    SubsetCard(Busy(s'), Busy(s) + more);
  }

  lemma StepInv(f: Flow, s: Sys, step: Step)
    requires Inv(f, s) && Enabled(f, s, step)
    ensures Inv(f, Apply(f, s, step))
  {
    StepKeys(f, s, step);
    StepQueue(f, s, step);
    StepGates(f, s, step);
    StepOrder(f, s, step);
    StepModes(f, s, step);
    StepChannels(f, s, step);
    StepEnds(f, s, step);
    StepBusy(f, s, step);
  }

  /** s is reached by some run. */
  ghost predicate Reachable(f: Flow, s: Sys) {
    exists run :: f.Valid() && IsRun(f, Start(f), run) && s == After(f, Start(f), run)
  }

  lemma {:induction false} RunInv(f: Flow, s: Sys, run: seq<Step>)
    requires Inv(f, s) && IsRun(f, s, run)
    ensures Inv(f, After(f, s, run))
    decreases |run|
  {
    if run != [] {
      StepInv(f, s, run[0]);
      RunInv(f, Apply(f, s, run[0]), run[1..]);
    }
  }
}
