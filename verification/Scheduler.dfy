/**
 The scheduler of a playbook run as a state machine. One scheduler (actor 0) and a pool of
 workers (actors 1..workers) share two counters per task, the ready channel and the work queue.
 A counter decrement, each of the two counter loads of the readiness check, and the send on the
 ready channel are separate steps, so every interleaving of the actors is a run.
 */
module Scheduler {
  import opened Prelude
  import opened Graphs

  datatype Status = Pending | Running | Completed | Failed | Skipped {
    predicate Terminal() { Completed? || Failed? || Skipped? }
    predicate Succeeded() { Completed? || Skipped? }
  }

  /** Where an actor stands for the dependent it has just decremented. */
  datatype Phase = Next | LoadStream(dep: TaskId) | LoadState(dep: TaskId) | Send(dep: TaskId)

  datatype Pc =
    | Idle                       // the scheduler at its select, a worker waiting for work
    | Signalling(kind: Kind, task: TaskId, todo: set<TaskId>, phase: Phase)
    | Enqueueing(task: TaskId)   // the scheduler, about to hand a dispatched task to the workers
    | Executing(task: TaskId)    // a worker
    | Exited

  datatype Config = Config(g: Graph, workers: nat, readyCap: nat, ignoreErrors: set<TaskId>)

  datatype Signal = Signal(kind: Kind, producer: TaskId, consumer: TaskId)

  /** The last three fields are history: signals given, messages ever sent, tasks in dispatch order. */
  datatype Sys = Sys(
    status: map<TaskId, Status>,
    streamLeft: map<TaskId, int>,
    stateLeft: map<TaskId, int>,
    dispatched: set<TaskId>,
    ready: seq<TaskId>,
    queue: seq<TaskId>,
    actors: seq<Pc>,
    cancelled: bool,
    fatal: bool,
    fatalSeen: bool,
    signals: set<Signal>,
    sends: seq<TaskId>,
    order: seq<TaskId>)
  {
    function Left(k: Kind): map<TaskId, int> {
      if k.Stream? then streamLeft else stateLeft
    }

    predicate BothZero(n: TaskId) {
      n in streamLeft && n in stateLeft && streamLeft[n] == 0 && stateLeft[n] == 0
    }
  }

  datatype Step =
    | Receive
    | Decrement(actor: nat, dep: TaskId)
    | Load(actor: nat)
    | SendReady(actor: nat)
    | FinishSignals(actor: nat)
    | Enqueue
    | EnqueueCancelled
    | Take(actor: nat)
    | Complete(actor: nat, outcome: Status, raises: bool)
    | TakeFatal
    | CancelOutside
    | WorkerExit(actor: nat)
    | SchedulerStop

  predicate IsSignalling(s: Sys, a: nat) {
    a < |s.actors| && s.actors[a].Signalling?
  }

  predicate CanReceive(s: Sys) {
    |s.actors| > 0 && s.actors[0].Idle? && s.ready != []
  }

  predicate CanDecrement(s: Sys, a: nat, d: TaskId) {
    && IsSignalling(s, a) && s.actors[a].phase.Next? && d in s.actors[a].todo
    && d in s.Left(s.actors[a].kind)
  }

  predicate CanLoad(s: Sys, a: nat) {
    && IsSignalling(s, a)
    && var ph := s.actors[a].phase;
       (ph.LoadStream? && ph.dep in s.streamLeft) || (ph.LoadState? && ph.dep in s.stateLeft)
  }

  predicate CanSend(c: Config, s: Sys, a: nat) {
    IsSignalling(s, a) && s.actors[a].phase.Send? && |s.ready| < c.readyCap
  }

  predicate CanFinish(s: Sys, a: nat) {
    IsSignalling(s, a) && s.actors[a].phase.Next? && s.actors[a].todo == {}
  }

  predicate CanTake(s: Sys, a: nat) {
    0 < a < |s.actors| && s.actors[a].Idle? && s.queue != []
  }

  predicate CanComplete(c: Config, s: Sys, a: nat, outcome: Status, raises: bool) {
    && 0 < a < |s.actors| && s.actors[a].Executing? && outcome.Terminal()
    && s.actors[a].task in s.status
    && (raises ==> outcome.Failed? && s.actors[a].task !in c.ignoreErrors)
  }

  predicate Enabled(c: Config, s: Sys, step: Step) {
    && |s.actors| > 0
    && match step
       case Receive => CanReceive(s)
       case Decrement(a, d) => CanDecrement(s, a, d)
       case Load(a) => CanLoad(s, a)
       case SendReady(a) => CanSend(c, s, a)
       case FinishSignals(a) => CanFinish(s, a)
       case Enqueue => s.actors[0].Enqueueing? && |s.queue| < 2 * c.workers
       case EnqueueCancelled => s.actors[0].Enqueueing? && s.cancelled
       case Take(a) => CanTake(s, a)
       case Complete(a, outcome, raises) => CanComplete(c, s, a, outcome, raises)
       case TakeFatal => s.actors[0].Idle? && s.fatal
       case CancelOutside => !s.cancelled
       case WorkerExit(a) => 0 < a < |s.actors| && s.actors[a].Idle? && s.cancelled
       // Cancellation, all tasks accounted for, the early break and the stall exit all leave the
       // loop from its select, so the model lets the scheduler stop there at any time.
       case SchedulerStop => s.actors[0].Idle?
  }

  function SetPhase(s: Sys, a: nat, ph: Phase): Sys
    requires IsSignalling(s, a)
  {
    s.(actors := s.actors[a := s.actors[a].(phase := ph)])
  }

  function ApplyReceive(c: Config, s: Sys): Sys
    requires CanReceive(s)
  {
    var t := s.ready[0];
    var rest := s.(ready := s.ready[1..]);
    if t in s.dispatched || t !in s.status || s.status[t] != Pending then rest
    else rest.(
      dispatched := s.dispatched + {t},
      status := s.status[t := Running],
      order := s.order + [t],
      actors := s.actors[0 := Signalling(Stream, t, c.g.RequiredBy(t), Next)])
  }

  function ApplyDecrement(c: Config, s: Sys, a: nat, d: TaskId): Sys
    requires CanDecrement(s, a, d)
  {
    var k := s.actors[a].kind;
    var t := s.actors[a].task;
    var rest := s.actors[a].todo - {d};
    if t in c.g.Deps(k, d) then
      var left := s.Left(k)[d] - 1;
      s.(actors := s.actors[a := Signalling(k, t, rest, if left == 0 then LoadStream(d) else Next)],
         signals := s.signals + {Signal(k, t, d)},
         streamLeft := if k.Stream? then s.streamLeft[d := left] else s.streamLeft,
         stateLeft := if k.State? then s.stateLeft[d := left] else s.stateLeft)
    else
      s.(actors := s.actors[a := Signalling(k, t, rest, Next)])
  }

  function ApplyLoad(c: Config, s: Sys, a: nat): Sys
    requires CanLoad(s, a)
  {
    var ph := s.actors[a].phase;
    if ph.LoadStream? then SetPhase(s, a, if s.streamLeft[ph.dep] == 0 then LoadState(ph.dep) else Next)
    else SetPhase(s, a, if s.stateLeft[ph.dep] == 0 then Send(ph.dep) else Next)
  }

  function ApplyComplete(c: Config, s: Sys, a: nat, outcome: Status, raises: bool): Sys
    requires CanComplete(c, s, a, outcome, raises)
  {
    var t := s.actors[a].task;
    if s.status[t].Terminal() then s.(actors := s.actors[a := Idle])
    else s.(
      status := s.status[t := outcome],
      fatal := s.fatal || raises,
      actors := s.actors[a := if outcome.Succeeded() then Signalling(State, t, c.g.RequiredBy(t), Next) else Idle])
  }

  function ApplySend(c: Config, s: Sys, a: nat): Sys
    requires CanSend(c, s, a)
  {
    var d := s.actors[a].phase.dep;
    SetPhase(s, a, Next).(ready := s.ready + [d], sends := s.sends + [d])
  }

  function ApplyFinish(s: Sys, a: nat): Sys
    requires CanFinish(s, a)
  {
    s.(actors := s.actors[a := if a == 0 then Enqueueing(s.actors[a].task) else Idle])
  }

  function ApplyTake(s: Sys, a: nat): Sys
    requires CanTake(s, a)
  {
    s.(actors := s.actors[a := Executing(s.queue[0])], queue := s.queue[1..])
  }

  function Apply(c: Config, s: Sys, step: Step): Sys
    requires Enabled(c, s, step)
  {
    match step
    case Receive => ApplyReceive(c, s)
    case Decrement(a, d) => ApplyDecrement(c, s, a, d)
    case Load(a) => ApplyLoad(c, s, a)
    case SendReady(a) => ApplySend(c, s, a)
    case FinishSignals(a) => ApplyFinish(s, a)
    case Enqueue => s.(queue := s.queue + [s.actors[0].task], actors := s.actors[0 := Idle])
    case EnqueueCancelled => s.(status := s.status[s.actors[0].task := Failed], actors := s.actors[0 := Idle])
    case Take(a) => ApplyTake(s, a)
    case Complete(a, outcome, raises) => ApplyComplete(c, s, a, outcome, raises)
    case TakeFatal => s.(fatal := false, fatalSeen := true, cancelled := true)
    case CancelOutside => s.(cancelled := true)
    case WorkerExit(a) => s.(actors := s.actors[a := Exited])
    case SchedulerStop => s.(actors := s.actors[0 := Exited])
  }

  /** The state after the graph is built, the workers are started and the ready channel is seeded. */
  ghost predicate Init(c: Config, s: Sys) {
    && s.status == (map n | n in c.g.nodes :: Pending)
    && s.streamLeft == (map n | n in c.g.nodes :: |c.g.Deps(Stream, n)|)
    && s.stateLeft == (map n | n in c.g.nodes :: |c.g.Deps(State, n)|)
    && s.dispatched == {} && s.queue == [] && s.signals == {} && s.order == []
    && NoDup(s.ready) && Elements(s.ready) == InitiallyReady(c.g) && s.sends == s.ready
    && s.actors == seq(c.workers + 1, _ => Idle)
    && !s.cancelled && !s.fatal && !s.fatalSeen
  }

  function InitiallyReady(g: Graph): set<TaskId> {
    set n | n in g.nodes && g.Deps(Stream, n) == {} && g.Deps(State, n) == {}
  }

  /** A run is a sequence of steps, each enabled in the state it is taken from. */
  ghost predicate IsRun(c: Config, s: Sys, run: seq<Step>)
    decreases |run|
  {
    run == [] || (Enabled(c, s, run[0]) && IsRun(c, Apply(c, s, run[0]), run[1..]))
  }

  ghost function After(c: Config, s: Sys, run: seq<Step>): Sys
    requires IsRun(c, s, run)
    decreases |run|
  {
    if run == [] then s else After(c, Apply(c, s, run[0]), run[1..])
  }

  /** A run goes on with any step enabled at its end. */
  lemma {:induction false} RunAppend(c: Config, s: Sys, run: seq<Step>, step: Step)
    requires IsRun(c, s, run) && Enabled(c, After(c, s, run), step)
    ensures IsRun(c, s, run + [step]) && After(c, s, run + [step]) == Apply(c, After(c, s, run), step)
    decreases |run|
  {
    if run == [] {
      assert (run + [step])[1..] == [];
    } else {
      assert (run + [step])[1..] == run[1..] + [step];
      RunAppend(c, Apply(c, s, run[0]), run[1..], step);
    }
  }
}
