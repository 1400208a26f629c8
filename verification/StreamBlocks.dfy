/** Where streaming tasks that cannot go on are blocked, and when none ever are. */
module StreamBlocks {
  import opened Prelude
  import opened Graphs
  import opened ChannelTopology
  import opened StreamFlow

  ghost predicate Stuck(f: Flow, s: Sys) {
    forall step :: !Enabled(f, s, step)
  }

  predicate Executes(s: Sys, t: TaskId) {
    t in s.mode && s.mode[t].Executing()
  }

  /** The producer wants to write to the channel, which is full. */
  predicate IsFull(f: Flow, s: Sys, e: Edge) {
    && e in f.edges && Writes(s, f.edges[e]) && s.mode[f.edges[e]].rest[0] == e
    && e in s.buffered && s.buffered[e] == f.capacity
  }

  /** Full, and the consumer does not execute: it is not dispatched, has no worker yet, or was skipped. */
  predicate FullToNobody(f: Flow, s: Sys, e: Edge) {
    IsFull(f, s, e) && !Executes(s, e.consumer)
  }

  /** Full, and the consumer reads other inputs to their end first. */
  ghost predicate FullToJoin(f: Flow, s: Sys, e: Edge) {
    IsFull(f, s, e) && Reads(s, e.consumer) && !IsOpen(f, s, e)
  }

  /** The consumer waits at the empty channel, and the producer was skipped and will never close it. */
  predicate OpenFromNobody(f: Flow, s: Sys, e: Edge) {
    && e in f.edges && Reads(s, e.consumer) && e in s.buffered && s.buffered[e] == 0
    && e !in s.closed && HasEnded(s, f.edges[e])
  }

  ghost predicate BlockedAt(f: Flow, s: Sys, e: Edge) {
    FullToNobody(f, s, e) || FullToJoin(f, s, e) || OpenFromNobody(f, s, e)
  }

  lemma EdgeEnds(f: Flow, s: Sys, e: Edge)
    requires Inv(f, s) && e in f.edges
    ensures f.edges[e] in s.mode && e.consumer in s.mode && f.edges[e] != e.consumer
    ensures f.edges[e] in f.outs && e.consumer in f.outs && f.edges[e] in s.left && e in s.buffered && e in s.sent
    ensures Position(f.tasks, f.edges[e]) < Position(f.tasks, e.consumer) <= |f.tasks|
  {
    assert f.Before(f.edges[e], e.consumer);
  }

  /** What t may write after a record of e in any case. */
  ghost function Forwarded(f: Flow, t: TaskId, e: Edge): seq<Edge>
    requires t in f.outs
  {
    if e in f.late || f.IsJoin(t) then [] else f.outs[t]
  }

  lemma ForwardedIsAllowed(f: Flow, t: TaskId, e: Edge)
    requires t in f.outs
    ensures f.MayWrite(t, e, Forwarded(f, t, e))
  {
  }

  lemma CannotWrite(f: Flow, s: Sys, t: TaskId, e: Edge)
    requires Writes(s, t) && e == s.mode[t].rest[0] && e in f.edges && e in s.buffered && e in s.sent
    requires s.buffered[e] <= f.capacity && e.consumer in f.outs && e.consumer != t
    requires var w := Forwarded(f, e.consumer, e);
      !Enabled(f, s, Put(t)) && !Enabled(f, s, HandOver(t, w)) && !Enabled(f, s, Receive(e.consumer, e, w))
    ensures s.buffered[e] == f.capacity && !(Reads(s, e.consumer) && IsOpen(f, s, e))
  {
    ForwardedIsAllowed(f, e.consumer, e);
  }

  lemma FirstOut(f: Flow, s: Sys, t: TaskId)
    requires Inv(f, s) && Writes(s, t)
    ensures var e := s.mode[t].rest[0];
      && e in f.edges && f.edges[e] == t && e in s.buffered && e in s.sent && s.buffered[e] <= f.capacity
      && e.consumer in f.outs && e.consumer != t
  {
    assert s.mode[t].rest[0] in s.mode[t].rest;
    EdgeEnds(f, s, s.mode[t].rest[0]);
  }

  /** A task that cannot write faces a full channel whose consumer is not about to read from it. */
  lemma WriterWaits(f: Flow, s: Sys, t: TaskId) returns (e: Edge)
    requires Inv(f, s) && Stuck(f, s) && t in s.mode && s.mode[t].Writing?
    ensures e in f.edges && f.edges[e] == t && IsFull(f, s, e) && !(Reads(s, e.consumer) && IsOpen(f, s, e))
  {
    assert !Enabled(f, s, Written(t));
    e := s.mode[t].rest[0];
    FirstOut(f, s, t);
    CannotWrite(f, s, t, e);
  }

  /** What is not over and cannot be received from is empty and open. */
  lemma CannotReceive(f: Flow, s: Sys, t: TaskId, e: Edge)
    requires Reads(s, t) && f.IsInput(t, e) && IsOpen(f, s, e) && e in s.buffered && t in f.outs && !IsOver(s, e)
    requires !Enabled(f, s, Receive(t, e, Forwarded(f, t, e)))
    ensures s.buffered[e] == 0 && e !in s.closed
  {
    ForwardedIsAllowed(f, t, e);
  }

  lemma SomeInputOpen(f: Flow, s: Sys, t: TaskId) returns (e: Edge)
    requires Reads(s, t) && t in f.outs && t in s.left && !Enabled(f, s, Produce(t)) && !Enabled(f, s, End(t))
    ensures f.IsInput(t, e) && IsOpen(f, s, e) && !IsOver(s, e)
  {
    assert f.IsSource(t) ==> !InputsOver(f, s, t);
    if d :| f.IsEarly(t, d) && !IsOver(s, d) {
      e := d;
    } else {
      e :| f.IsInput(t, e) && !IsOver(s, e);
    }
  }

  /** A task that cannot read waits at an empty channel that is open. */
  lemma ReaderWaits(f: Flow, s: Sys, t: TaskId) returns (e: Edge)
    requires Inv(f, s) && Stuck(f, s) && Reads(s, t)
    ensures f.IsInput(t, e) && IsOpen(f, s, e) && e in s.buffered && s.buffered[e] == 0 && e !in s.closed
  {
    e := SomeInputOpen(f, s, t);
    EdgeEnds(f, s, e);
    CannotReceive(f, s, t, e);
  }

  /** A consumer that executes has a producer that executes or has ended. */
  lemma ProducerWasTaken(f: Flow, s: Sys, e: Edge)
    requires Inv(f, s) && e in f.edges && Executes(s, e.consumer)
    ensures f.edges[e] in s.mode && (Executes(s, f.edges[e]) || HasEnded(s, f.edges[e]))
  {
    var p, c := f.edges[e], e.consumer;
    assert CanStart(f, s, c) && f.IsInput(c, e);
    if p in s.queue { AheadIsQueued(s.queue, p, c); }
  }

  lemma AheadIsQueued(queue: seq<TaskId>, a: TaskId, b: TaskId)
    ensures Ahead(queue, a, b) ==> b in queue
  {
  }

  /** From a writing task the block is found downstream. */
  lemma {:induction false} Downstream(f: Flow, s: Sys, t: TaskId) returns (e: Edge)
    requires Inv(f, s) && Stuck(f, s) && t in s.mode && s.mode[t].Writing?
    ensures BlockedAt(f, s, e)
    decreases |f.tasks| - Position(f.tasks, t)
  {
    e := WriterWaits(f, s, t);
    EdgeEnds(f, s, e);
    if s.mode[e.consumer].Writing? {
      e := Downstream(f, s, e.consumer);
    }
  }

  /** From a reading task it is found upstream, or downstream of a producer. */
  lemma {:induction false} Upstream(f: Flow, s: Sys, t: TaskId) returns (e: Edge)
    requires Inv(f, s) && Stuck(f, s) && Reads(s, t)
    ensures BlockedAt(f, s, e)
    decreases Position(f.tasks, t)
  {
    e := ReaderWaits(f, s, t);
    ProducerWasTaken(f, s, e);
    EdgeEnds(f, s, e);
    var p := f.edges[e];
    if s.mode[p].Writing? {
      e := Downstream(f, s, p);
    } else if s.mode[p].Reading? {
      e := Upstream(f, s, p);
    }
  }

  ghost predicate AllEnded(s: Sys) {
    forall t :: t in s.mode ==> s.mode[t].Ended?
  }

  /** Among tasks none of which executes or is queued, the first one left can be dispatched. */
  lemma {:induction false} NonePending(f: Flow, s: Sys, t: TaskId)
    requires Inv(f, s) && Stuck(f, s) && t in s.mode && s.queue == [] && forall x :: !Executes(s, x)
    ensures HasEnded(s, t)
    decreases Position(f.tasks, t)
  {
    assert s.mode[t].Queued? ==> t in s.queue;
    assert !Executes(s, t);
    forall e | f.IsInput(t, e) ensures Started(s, f.edges[e]) {
      EdgeEnds(f, s, e);
      NonePending(f, s, f.edges[e]);
    }
    forall x | f.Waits(t, x) ensures HasEnded(s, x) {
      assert f.Before(x, t) && x in s.mode;
      NonePending(f, s, x);
    }
    assert CanStart(f, s, t) && !Enabled(f, s, Dispatch(t));
  }

  lemma NobodyExecutes(f: Flow, s: Sys)
    requires Inv(f, s) && Stuck(f, s) && f.workers >= 1 && forall t :: !Executes(s, t)
    ensures AllEnded(s)
  {
    assert forall t :: t in Busy(s) ==> Executes(s, t);
    assert Busy(s) == {} && !Enabled(f, s, Take);
    forall t | t in s.mode ensures s.mode[t].Ended? { NonePending(f, s, t); }
  }

  // ---- How many records a channel carries ----

  function ToWrite(m: Mode, e: Edge): nat {
    if m.Writing? then multiset(m.rest)[e] else 0
  }

  /** What a source has sent over a channel, is about to send and has yet to produce is all that it produces. */
  ghost predicate CountOk(f: Flow, s: Sys, e: Edge) {
    && e in f.edges && e in s.sent && e in s.buffered && s.buffered[e] <= s.sent[e]
    && var p := f.edges[e];
       p in s.left && p in s.mode && p in f.supply
       && (f.IsSource(p) ==> s.sent[e] + ToWrite(s.mode[p], e) + s.left[p] == f.supply[p])
  }

  lemma FirstToWrite(rest: seq<Edge>, e: Edge)
    requires rest != []
    ensures multiset(rest)[e] == multiset(rest[1..])[e] + if rest[0] == e then 1 else 0
  {
    assert rest == [rest[0]] + rest[1..];
  }

  lemma AllToWrite(f: Flow, e: Edge)
    requires f.Valid() && e in f.edges
    ensures f.edges[e] in f.outs && multiset(f.outs[f.edges[e]])[e] == 1
  {
    assert f.Before(f.edges[e], e.consumer);
    CountNoDup(f.outs[f.edges[e]], e);
  }

  lemma StepCount(f: Flow, s: Sys, step: Step, e: Edge)
    requires Inv(f, s) && Enabled(f, s, step) && CountOk(f, s, e)
    ensures CountOk(f, Apply(f, s, step), e)
  {
    var p := f.edges[e];
    AllToWrite(f, e);
    if step.Put? || step.HandOver? {
      RestIsOwn(f, s, step.t);
      if p == step.t { FirstToWrite(s.mode[p].rest, e); }
      SendingCount(f, s, step, e);
    } else {
      if step.Take? { QueueHead(s); }
      QuietCount(f, s, step, e);
    }
  }

  lemma RestIsOwn(f: Flow, s: Sys, t: TaskId)
    requires ModesOk(f, s) && Writes(s, t)
    ensures s.mode[t].rest[0] in f.edges && f.edges[s.mode[t].rest[0]] == t
  {
    assert s.mode[t].rest[0] in s.mode[t].rest;
  }

  /** How a step that sends nothing over e changes the mode of its producer. */
  lemma QuietCount(f: Flow, s: Sys, step: Step, e: Edge)
    requires Enabled(f, s, step) && CountOk(f, s, e) && !step.Put? && !step.HandOver?
    requires var p := f.edges[e]; p in f.outs && multiset(f.outs[p])[e] == 1
    requires step.Take? ==> s.queue[0] in s.mode && s.mode[s.queue[0]].Queued?
    ensures CountOk(f, Apply(f, s, step), e)
  {
    var s', p := Apply(f, s, step), f.edges[e];
    assert p in s'.left && p in s'.mode && e in s'.sent && e in s'.buffered;
    if f.IsSource(p) {
      match step
      case Receive(t, d, w) => assert f.IsInput(t, d);
      case Flush(t, w) => assert t != p;
      case _ =>
    }
  }

  lemma SendingCount(f: Flow, s: Sys, step: Step, e: Edge)
    requires Enabled(f, s, step) && CountOk(f, s, e) && (step.Put? || step.HandOver?)
    requires var d := s.mode[step.t].rest[0]; d in f.edges && f.edges[d] == step.t
    requires step.t == f.edges[e] ==> var rest := s.mode[step.t].rest;
      multiset(rest)[e] == multiset(rest[1..])[e] + if rest[0] == e then 1 else 0
    ensures CountOk(f, Apply(f, s, step), e)
  {
    var s', p, d := Apply(f, s, step), f.edges[e], s.mode[step.t].rest[0];
    assert p in s'.mode && e in s'.sent && e in s'.buffered;
    if step.HandOver? && p == d.consumer { assert f.IsInput(p, d); }
  }

  ghost predicate Counted(f: Flow, s: Sys) {
    forall e :: e in f.edges ==> CountOk(f, s, e)
  }

  lemma StartCounted(f: Flow)
    requires f.Valid()
    ensures Counted(f, Start(f))
  {
    forall e | e in f.edges ensures CountOk(f, Start(f), e) { assert f.Before(f.edges[e], e.consumer); }
  }

  lemma {:induction false} RunCounted(f: Flow, s: Sys, run: seq<Step>)
    requires Inv(f, s) && Counted(f, s) && IsRun(f, s, run)
    ensures Counted(f, After(f, s, run))
    decreases |run|
  {
    if run != [] {
      StepInv(f, s, run[0]);
      forall e | e in f.edges ensures CountOk(f, Apply(f, s, run[0]), e) { StepCount(f, s, run[0], e); }
      RunCounted(f, Apply(f, s, run[0]), run[1..]);
    }
  }

  /** The state at the end of any run. */
  lemma ReachableFacts(f: Flow, s: Sys)
    requires Reachable(f, s)
    ensures Inv(f, s) && Counted(f, s)
  {
    var run :| f.Valid() && IsRun(f, Start(f), run) && s == After(f, Start(f), run);
    StartInv(f);
    RunInv(f, Start(f), run);
    StartCounted(f);
    RunCounted(f, Start(f), run);
  }

  /** The channel holds all that its producer, a source, ever writes. */
  ghost predicate HoldsAll(f: Flow, e: Edge) {
    e in f.edges && f.edges[e] in f.supply && f.IsSource(f.edges[e]) && f.supply[f.edges[e]] <= f.capacity
  }

  lemma NeverFull(f: Flow, s: Sys, e: Edge)
    requires Counted(f, s) && HoldsAll(f, e)
    ensures !IsFull(f, s, e)
  {
    assert CountOk(f, s, e);
    if IsFull(f, s, e) { FirstToWrite(s.mode[f.edges[e]].rest, e); }
  }

  // ---- What the blocks are ----

  /**
   With a worker at all, a state that cannot go on has all its tasks ended if and only if no channel is
   blocked at one of its ends.
   */
  lemma StuckIsBlocked(f: Flow, s: Sys)
    requires Reachable(f, s) && Stuck(f, s) && f.workers >= 1
    ensures AllEnded(s) <==> forall e :: !BlockedAt(f, s, e)
  {
    ReachableFacts(f, s);
    SomeBlock(f, s);
  }

  lemma SomeBlock(f: Flow, s: Sys)
    requires Inv(f, s) && Stuck(f, s) && f.workers >= 1
    ensures AllEnded(s) <==> forall e :: !BlockedAt(f, s, e)
  {
    if t :| Executes(s, t) {
      if s.mode[t].Writing? { var e := Downstream(f, s, t); } else { var e := Upstream(f, s, t); }
    } else {
      NobodyExecutes(f, s);
    }
  }

  /** A task that reads from a skipped one never ends, in any run. */
  lemma SkippedProducerBlocks(f: Flow, s: Sys, e: Edge)
    requires Reachable(f, s) && e in f.edges && f.edges[e] in f.skipped && e.consumer !in f.skipped
    ensures !AllEnded(s)
  {
    ReachableFacts(f, s);
    EdgeEnds(f, s, e);
    assert e !in s.closed && f.IsInput(e.consumer, e) && !InputsOver(f, s, e.consumer);
  }

  // ---- When streaming tasks complete ----

  /**
   Streams run within a stage, or to a later one if their channel holds all that is written. A join
   reads a late input within its stage only if its other inputs come from earlier ones.
   */
  ghost predicate EdgeStaged(f: Flow, stage: TaskId -> nat, e: Edge)
    requires e in f.edges
  {
    var p, c := f.edges[e], e.consumer;
    && stage(p) <= stage(c) && (p in f.skipped ==> c in f.skipped)
    && (p !in f.skipped && !HoldsAll(f, e) ==>
          && c !in f.skipped && stage(p) == stage(c)
          && (e in f.late ==> forall d :: f.IsEarly(c, d) ==> stage(f.edges[d]) < stage(c)))
  }

  /** And a task waits only for the state of tasks of earlier stages. */
  ghost predicate Staged(f: Flow, stage: TaskId -> nat) {
    && (forall e :: e in f.edges ==> EdgeStaged(f, stage, e))
    && forall t, x :: f.Waits(t, x) ==> stage(x) < stage(t)
  }

  ghost predicate HasStages(f: Flow) {
    exists stage: TaskId -> nat :: Staged(f, stage)
  }

  ghost predicate EarlierEnded(s: Sys, stage: TaskId -> nat, k: nat) {
    forall t :: t in s.mode && stage(t) < k ==> HasEnded(s, t)
  }

  lemma {:induction false} StageStarted(f: Flow, s: Sys, stage: TaskId -> nat, t: TaskId)
    requires Inv(f, s) && Stuck(f, s) && Staged(f, stage) && t in s.mode && EarlierEnded(s, stage, stage(t))
    ensures Started(s, t)
    decreases Position(f.tasks, t)
  {
    forall e | f.IsInput(t, e) ensures Started(s, f.edges[e]) {
      EdgeEnds(f, s, e);
      assert EdgeStaged(f, stage, e);
      if stage(f.edges[e]) == stage(t) {
        StageStarted(f, s, stage, f.edges[e]);
      } else {
        assert HasEnded(s, f.edges[e]);
      }
    }
    forall x | f.Waits(t, x) ensures HasEnded(s, x) { assert f.Before(x, t) && x in s.mode; }
    assert CanStart(f, s, t) && !Enabled(f, s, Dispatch(t));
  }

  /** While a task waits in the queue, not all workers can be busy if there is one for every task. */
  lemma NoneQueued(f: Flow, s: Sys)
    requires Inv(f, s) && Stuck(f, s) && f.workers >= |f.tasks|
    ensures s.queue == []
  {
    if s.queue != [] {
      QueueHead(s);
      var others := Elements(f.tasks) - {s.queue[0]};
      assert Busy(s) <= others;
      SubsetCard(Busy(s), others);
      NoDupCard(f.tasks);
      assert Enabled(f, s, Take);
    }
  }

  lemma {:induction false} NoDupCard(tasks: seq<TaskId>)
    ensures |Elements(tasks)| <= |tasks|
  {
    if tasks == [] {
      assert Elements(tasks) == {};
    } else {
      var init, last := tasks[..|tasks| - 1], tasks[|tasks| - 1];
      assert tasks == init + [last];
      NoDupCard(init);
      assert Elements(tasks) == Elements(init) + {last};
    }
  }

  /** A task of the lowest stage left executes or has ended. */
  lemma StageTaken(f: Flow, s: Sys, stage: TaskId -> nat, t: TaskId)
    requires Inv(f, s) && Stuck(f, s) && Staged(f, stage) && t in s.mode && EarlierEnded(s, stage, stage(t))
    requires f.workers >= |f.tasks|
    ensures Executes(s, t) || HasEnded(s, t)
  {
    StageStarted(f, s, stage, t);
    NoneQueued(f, s);
    assert s.mode[t].Queued? ==> t in s.queue;
  }

  /** A join that reads at all reads its late input, once its early inputs come from tasks that have ended. */
  lemma LateIsOpen(f: Flow, s: Sys, stage: TaskId -> nat, e: Edge)
    requires Inv(f, s) && Stuck(f, s) && Staged(f, stage) && e in f.edges && Reads(s, e.consumer)
    requires EarlierEnded(s, stage, stage(e.consumer))
    requires forall d :: f.IsEarly(e.consumer, d) ==> stage(f.edges[d]) < stage(e.consumer)
    ensures IsOpen(f, s, e)
  {
    forall d | f.IsEarly(e.consumer, d) ensures IsOver(s, d) {
      EdgeEnds(f, s, d);
      assert EdgeStaged(f, stage, d) && HasEnded(s, f.edges[d]) && e.consumer !in f.skipped;
      if !IsOver(s, d) { CannotReceive(f, s, e.consumer, d); }
    }
  }

  lemma ConsumerEnded(f: Flow, s: Sys, e: Edge)
    requires EndsOk(f, s) && ChannelsOk(f, s) && e in f.edges && HasEnded(s, e.consumer) && e.consumer !in f.skipped
    ensures HasEnded(s, f.edges[e])
  {
    assert f.IsInput(e.consumer, e) && IsOver(s, e);
  }

  /** Nobody of the lowest stage left is writing: ... */
  lemma {:induction false} WriterGoesOn(f: Flow, s: Sys, stage: TaskId -> nat, t: TaskId)
    requires Inv(f, s) && Counted(f, s) && Stuck(f, s) && Staged(f, stage) && t in s.mode && f.workers >= |f.tasks|
    requires EarlierEnded(s, stage, stage(t))
    ensures !s.mode[t].Writing?
    decreases |f.tasks| - Position(f.tasks, t)
  {
    if s.mode[t].Writing? {
      var e := WriterWaits(f, s, t);
      EdgeEnds(f, s, e);
      if HoldsAll(f, e) { NeverFull(f, s, e); }
      assert EdgeStaged(f, stage, e) && t !in f.skipped;
      var c := e.consumer;
      StageTaken(f, s, stage, c);
      WriterGoesOn(f, s, stage, c);
      if HasEnded(s, c) {
        ConsumerEnded(f, s, e);
      } else if e in f.late {
        LateIsOpen(f, s, stage, e);
      }
    }
  }

  /** ... nor reading. */
  lemma {:induction false} ReaderGoesOn(f: Flow, s: Sys, stage: TaskId -> nat, t: TaskId)
    requires Inv(f, s) && Counted(f, s) && Stuck(f, s) && Staged(f, stage) && t in s.mode && f.workers >= |f.tasks|
    requires EarlierEnded(s, stage, stage(t))
    ensures !Reads(s, t)
    decreases Position(f.tasks, t)
  {
    if Reads(s, t) {
      var e := ReaderWaits(f, s, t);
      EdgeEnds(f, s, e);
      assert EdgeStaged(f, stage, e) && t !in f.skipped;
      var p := f.edges[e];
      StageTaken(f, s, stage, p);
      WriterGoesOn(f, s, stage, p);
      ReaderGoesOn(f, s, stage, p);
    }
  }

  /** With such stages and a worker for every task, whatever cannot go on has completed. */
  lemma StagesComplete(f: Flow, s: Sys)
    requires Reachable(f, s) && Stuck(f, s) && HasStages(f) && f.workers >= |f.tasks|
    ensures AllEnded(s)
  {
    var stage: TaskId -> nat :| Staged(f, stage);
    ReachableFacts(f, s);
    forall t | t in s.mode ensures s.mode[t].Ended? { StageEnds(f, s, stage, t, stage(t)); }
  }

  /** In particular where nothing is skipped, no task waits for a state and none is a join. */
  lemma EnoughWorkers(f: Flow, s: Sys)
    requires Reachable(f, s) && Stuck(f, s) && f.workers >= |f.tasks|
    requires f.skipped == {} && f.late == {} && forall t, x :: !f.Waits(t, x)
    ensures AllEnded(s)
  {
    assert Staged(f, _ => 0);
    StagesComplete(f, s);
  }

  lemma {:induction false} StageEnds(f: Flow, s: Sys, stage: TaskId -> nat, t: TaskId, k: nat)
    requires Inv(f, s) && Counted(f, s) && Stuck(f, s) && Staged(f, stage) && f.workers >= |f.tasks|
    requires t in s.mode && k == stage(t)
    ensures HasEnded(s, t)
    decreases k
  {
    forall x | x in s.mode && stage(x) < k ensures HasEnded(s, x) { StageEnds(f, s, stage, x, stage(x)); }
    StageTaken(f, s, stage, t);
    WriterGoesOn(f, s, stage, t);
    ReaderGoesOn(f, s, stage, t);
  }
}
