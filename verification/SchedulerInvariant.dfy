/** What every step of the scheduler keeps. */
module SchedulerInvariant {
  import opened Prelude
  import opened Graphs
  import opened Scheduler

  ghost predicate Shape(c: Config, s: Sys) {
    && s.status.Keys == c.g.nodes && s.streamLeft.Keys == c.g.nodes && s.stateLeft.Keys == c.g.nodes
    && s.dispatched <= c.g.nodes
    && |s.actors| == c.workers + 1
    && forall a :: 0 <= a < |s.actors| ==> ActorShape(c, a, s.actors[a])
  }

  ghost predicate ActorShape(c: Config, a: nat, pc: Pc) {
    match pc
    case Signalling(k, t, todo, phase) =>
      && (a == 0 <==> k.Stream?) && t in c.g.nodes && todo <= c.g.nodes
      && (!phase.Next? ==> phase.dep in c.g.nodes)
    case Enqueueing(t) => a == 0 && t in c.g.nodes
    case Executing(t) => a != 0 && t in c.g.nodes
    case _ => true
  }

  /** A task is Pending exactly until it is dispatched. */
  ghost predicate StatusTracksDispatch(c: Config, s: Sys) {
    forall n :: n in c.g.nodes && n in s.status ==> (s.status[n] == Pending <==> n !in s.dispatched)
  }

  /** The task an actor holds, and the status the task must have there. */
  function HeldTask(pc: Pc): Option<TaskId> {
    match pc
    case Signalling(_, t, _, _) => Some(t)
    case Enqueueing(t) => Some(t)
    case Executing(t) => Some(t)
    case _ => None
  }

  ghost predicate HeldStatus(s: Sys, pc: Pc) {
    HeldTask(pc).Some? ==>
      var t := HeldTask(pc).value;
      t in s.status && if pc.Signalling? && pc.kind.State? then s.status[t].Succeeded() else s.status[t] == Running
  }

  ghost predicate QueueSound(s: Sys) {
    NoDup(s.queue) && forall t :: t in s.queue ==> t in s.status && s.status[t] == Running
  }

  ghost predicate HeldOnce(s: Sys) {
    && (forall a :: 0 <= a < |s.actors| ==> HeldTask(s.actors[a]).Some? ==> HeldTask(s.actors[a]).value !in s.queue)
    && (forall a, b :: 0 <= a < b < |s.actors| ==>
          HeldTask(s.actors[a]).Some? ==> HeldTask(s.actors[a]) != HeldTask(s.actors[b]))
  }

  /** A dispatched task is held in one place only: by one actor, or once in the work queue. */
  ghost predicate Places(s: Sys) {
    QueueSound(s) && HeldOnce(s) && forall a :: 0 <= a < |s.actors| ==> HeldStatus(s, s.actors[a])
  }

  /** Every Running task is held somewhere. */
  ghost predicate RunningIsHeld(s: Sys) {
    forall t :: t in s.status && s.status[t] == Running ==>
      t in s.queue || exists a :: 0 <= a < |s.actors| && HeldTask(s.actors[a]) == Some(t)
  }

  ghost predicate Fired(s: Sys, k: Kind, p: TaskId) {
    if k.Stream? then p in s.dispatched else p in s.status && s.status[p].Succeeded()
  }

  /** Some actor still has consumer n on its list for producer p. */
  ghost predicate StillToSignal(s: Sys, k: Kind, p: TaskId, n: TaskId) {
    exists a :: 0 <= a < |s.actors| && Owes(s.actors[a], k, p, n)
  }

  ghost predicate Owes(pc: Pc, k: Kind, p: TaskId, n: TaskId) {
    pc.Signalling? && pc.kind == k && pc.task == p && n in pc.todo
  }

  /** A signal has been given exactly when its producer has fired and no actor still owes it. */
  ghost predicate SignalsExact(c: Config, s: Sys) {
    forall k, p, n ::
      Signal(k, p, n) in s.signals <==> (p in c.g.Deps(k, n) && Fired(s, k, p) && !StillToSignal(s, k, p, n))
  }

  /** The producers of n, over edges of kind k, that have not signalled it yet. */
  ghost function Waiting(c: Config, s: Sys, k: Kind, n: TaskId): set<TaskId> {
    set p | p in c.g.Deps(k, n) && Signal(k, p, n) !in s.signals
  }

  ghost predicate CountersExact(c: Config, s: Sys) {
    forall k, n :: n in c.g.nodes && n in s.Left(k) ==> s.Left(k)[n] == |Waiting(c, s, k, n)|
  }

  ghost predicate PhasesSound(s: Sys) {
    forall a :: 0 <= a < |s.actors| && s.actors[a].Signalling? ==> PhaseSound(s, s.actors[a].phase)
  }

  ghost predicate PhaseSound(s: Sys, ph: Phase) {
    && (ph.LoadState? ==> ph.dep in s.streamLeft && s.streamLeft[ph.dep] == 0)
    && (ph.Send? ==> s.BothZero(ph.dep))
  }

  ghost predicate ReadySound(c: Config, s: Sys) {
    && (forall n :: n in s.sends ==> n in c.g.nodes && s.BothZero(n) && (n in s.ready || n in s.dispatched))
    && (forall n :: n in s.ready ==> n in s.sends)
    && |s.ready| <= |s.sends|
    && (forall n :: n in s.dispatched ==> s.BothZero(n))
  }

  /** The actors between a counter of d reaching zero and the end of the check that follows. */
  ghost function Checking(s: Sys, d: TaskId): set<nat> {
    set a: nat | a < |s.actors| && Checks(s.actors[a], d)
  }

  ghost predicate Checks(pc: Pc, d: TaskId) {
    pc.Signalling? && !pc.phase.Next? && pc.phase.dep == d
  }

  /** How often a counter of d has reached zero, counting the seeding of a task without dependencies. */
  ghost function Crossings(c: Config, s: Sys, d: TaskId): nat
    requires d in s.streamLeft && d in s.stateLeft
  {
    (if c.g.Deps(Stream, d) != {} && s.streamLeft[d] == 0 then 1 else 0)
    + (if c.g.Deps(State, d) != {} && s.stateLeft[d] == 0 then 1 else 0)
    + (if c.g.Deps(Stream, d) == {} && c.g.Deps(State, d) == {} then 1 else 0)
  }

  ghost function Sent(s: Sys, d: TaskId): nat {
    multiset(s.sends)[d]
  }

  /** No wake-up is lost and none is invented. */
  ghost predicate WakeUps(c: Config, s: Sys) {
    && (forall d :: d in c.g.nodes && d in s.streamLeft && d in s.stateLeft ==>
          Sent(s, d) + |Checking(s, d)| <= Crossings(c, s, d))
    && (forall d :: d in c.g.nodes && s.BothZero(d) ==> Sent(s, d) + |Checking(s, d)| >= 1)
  }

  /** The order lists exactly the given tasks, each once and after all its producers. */
  ghost predicate TopologicalOrder(g: Graph, order: seq<TaskId>, tasks: set<TaskId>) {
    && NoDup(order) && Elements(order) == tasks
    && forall i, p :: 0 <= i < |order| && g.Edge(p, order[i]) ==> p in order[..i]
  }

  /** Dispatch order is a topological order of the tasks dispatched so far. */
  ghost predicate Topological(c: Config, s: Sys) {
    TopologicalOrder(c.g, s.order, s.dispatched)
  }

  ghost predicate Inv(c: Config, s: Sys) {
    && c.g.WellFormed() && Shape(c, s) && StatusTracksDispatch(c, s) && Places(s) && RunningIsHeld(s)
    && SignalsExact(c, s) && CountersExact(c, s) && PhasesSound(s) && ReadySound(c, s)
    && WakeUps(c, s) && Topological(c, s)
  }
}
