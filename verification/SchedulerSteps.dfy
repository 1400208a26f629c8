/** Every step of the scheduler keeps the invariant. */
module SchedulerSteps {
  import opened Prelude
  import opened Graphs
  import opened Scheduler
  import opened SchedulerInvariant

  // ---- Shapes and statuses ----

  lemma ReceiveShape(c: Config, s: Sys)
    requires Shape(c, s) && StatusTracksDispatch(c, s) && CanReceive(s)
    ensures Shape(c, ApplyReceive(c, s)) && StatusTracksDispatch(c, ApplyReceive(c, s))
  {
  }

  lemma DecrementShape(c: Config, s: Sys, a: nat, d: TaskId)
    requires Shape(c, s) && CanDecrement(s, a, d)
    ensures Shape(c, ApplyDecrement(c, s, a, d))
  {
  }

  lemma LoadShape(c: Config, s: Sys, a: nat)
    requires Shape(c, s) && StatusTracksDispatch(c, s) && CanLoad(s, a)
    ensures Shape(c, ApplyLoad(c, s, a)) && StatusTracksDispatch(c, ApplyLoad(c, s, a))
  {
  }

  lemma CompleteShape(c: Config, s: Sys, a: nat, o: Status, r: bool)
    requires Shape(c, s) && StatusTracksDispatch(c, s) && CanComplete(c, s, a, o, r) && Places(s)
    ensures Shape(c, ApplyComplete(c, s, a, o, r)) && StatusTracksDispatch(c, ApplyComplete(c, s, a, o, r))
  {
  }

  lemma StepShape(c: Config, s: Sys, step: Step)
    requires Shape(c, s) && StatusTracksDispatch(c, s) && Enabled(c, s, step) && Places(s)
    ensures Shape(c, Apply(c, s, step)) && StatusTracksDispatch(c, Apply(c, s, step))
  {
    match step
    case Receive => ReceiveShape(c, s);
    case Decrement(a, d) => DecrementShape(c, s, a, d);
    case Load(a) => LoadShape(c, s, a);
    case Complete(a, o, r) => CompleteShape(c, s, a, o, r);
    case _ =>
  }

  // ---- Places ----

  /** Giving actor a a new pc and changing statuses only of tasks that nobody else holds. */
  lemma ActorStep(s: Sys, s': Sys, a: nat)
    requires Places(s) && a < |s.actors| && |s'.actors| == |s.actors|
    requires forall b :: 0 <= b < |s.actors| && b != a ==> s'.actors[b] == s.actors[b]
    requires s'.queue == s.queue
    requires HeldStatus(s', s'.actors[a])
    requires HeldTask(s'.actors[a]).Some? ==> HeldTask(s'.actors[a]) == HeldTask(s.actors[a])
    requires forall t :: t in s.status && Some(t) != HeldTask(s.actors[a]) ==>
      t in s'.status && s'.status[t] == s.status[t]
    ensures Places(s')
  {
  }

  /** A task that is Pending is held nowhere. */
  lemma PendingNotHeld(s: Sys, t: TaskId, b: nat)
    requires Places(s) && t in s.status && s.status[t] == Pending && b < |s.actors|
    ensures HeldTask(s.actors[b]) != Some(t) && t !in s.queue
    ensures HeldStatus(s.(status := s.status[t := Running]), s.actors[b])
  {
    assert HeldStatus(s, s.actors[b]);
  }

  lemma ReceivePlaces(c: Config, s: Sys)
    requires Shape(c, s) && CanReceive(s) && Places(s)
    ensures Places(ApplyReceive(c, s))
  {
    var s' := ApplyReceive(c, s);
    if s'.status != s.status {
      forall b | 0 <= b < |s.actors| ensures HeldTask(s.actors[b]) != Some(s.ready[0]) && HeldStatus(s', s'.actors[b]) {
        PendingNotHeld(s, s.ready[0], b);
      }
    }
  }

  lemma DecrementPlaces(c: Config, s: Sys, a: nat, d: TaskId)
    requires CanDecrement(s, a, d) && Places(s)
    ensures Places(ApplyDecrement(c, s, a, d))
  {
    assert HeldStatus(s, s.actors[a]);
    ActorStep(s, ApplyDecrement(c, s, a, d), a);
  }

  lemma LoadPlaces(c: Config, s: Sys, a: nat)
    requires CanLoad(s, a) && Places(s)
    ensures Places(ApplyLoad(c, s, a))
  {
    assert HeldStatus(s, s.actors[a]);
    ActorStep(s, ApplyLoad(c, s, a), a);
  }

  lemma SendPlaces(c: Config, s: Sys, a: nat)
    requires CanSend(c, s, a) && Places(s)
    ensures Places(ApplySend(c, s, a))
  {
  }

  lemma FinishPlaces(c: Config, s: Sys, a: nat)
    requires Shape(c, s) && CanFinish(s, a) && Places(s)
    ensures Places(ApplyFinish(s, a))
  {
  }

  lemma OtherPlaces(c: Config, s: Sys, step: Step)
    requires Enabled(c, s, step) && Places(s)
    requires step.EnqueueCancelled? || step.WorkerExit? || step.SchedulerStop? || step.TakeFatal? || step.CancelOutside?
    ensures Places(Apply(c, s, step))
  {
    ActorStep(s, Apply(c, s, step), if step.WorkerExit? then step.actor else 0); 
  }

  lemma CompletePlaces(c: Config, s: Sys, a: nat, o: Status, r: bool)
    requires CanComplete(c, s, a, o, r) && Places(s)
    ensures Places(ApplyComplete(c, s, a, o, r))
  {
  }

  lemma StepPlaces(c: Config, s: Sys, step: Step)
    requires Shape(c, s) && StatusTracksDispatch(c, s) && Enabled(c, s, step) && Places(s)
    ensures Places(Apply(c, s, step))
  {
    match step
    case Receive => ReceivePlaces(c, s);
    case Decrement(a, d) => DecrementPlaces(c, s, a, d);
    case Load(a) => LoadPlaces(c, s, a);
    case SendReady(a) => SendPlaces(c, s, a);
    case FinishSignals(a) => FinishPlaces(c, s, a);
    case Complete(a, o, r) => CompletePlaces(c, s, a, o, r);
    case Enqueue => EnqueuePlaces(c, s);
    case Take(a) => TakePlaces(c, s, a);
    case _ => OtherPlaces(c, s, step);
  }

  lemma EnqueuePlaces(c: Config, s: Sys)
    requires Shape(c, s) && Enabled(c, s, Enqueue) && Places(s)
    ensures Places(Apply(c, s, Enqueue))
  {
    var s' := Apply(c, s, Enqueue);
    assert HeldStatus(s, s.actors[0]);
    assert forall b :: 0 <= b < |s.actors| ==> HeldStatus(s', s'.actors[b]) by {
      forall b | 0 <= b < |s.actors| ensures HeldStatus(s', s'.actors[b]) { assert HeldStatus(s, s.actors[b]); }
    }
  }

  lemma TakePlaces(c: Config, s: Sys, a: nat)
    requires Shape(c, s) && CanTake(s, a) && Places(s)
    ensures Places(ApplyTake(s, a))
  {
  }

  lemma ReceiveHeld(c: Config, s: Sys)
    requires CanReceive(s) && RunningIsHeld(s)
    ensures RunningIsHeld(ApplyReceive(c, s))
  {
    var s' := ApplyReceive(c, s);
    forall t | t in s'.status && s'.status[t] == Running && t !in s'.queue
      ensures exists a :: 0 <= a < |s'.actors| && HeldTask(s'.actors[a]) == Some(t)
    {
      if t == s.ready[0] && s'.actors != s.actors {
        assert HeldTask(s'.actors[0]) == Some(t);
      } else {
        var a :| 0 <= a < |s.actors| && HeldTask(s.actors[a]) == Some(t);
        assert HeldTask(s'.actors[a]) == Some(t);
      }
    }
  }

  /** No task becomes Running; the task that actor a drops is queued or no longer Running. */
  lemma ActorHeld(s: Sys, s': Sys, a: nat)
    requires RunningIsHeld(s) && a < |s.actors| == |s'.actors|
    requires forall b :: 0 <= b < |s.actors| && b != a ==> s'.actors[b] == s.actors[b]
    requires forall t :: t in s'.status && s'.status[t] == Running ==> t in s.status && s.status[t] == Running
    requires forall t :: t in s.queue ==> t in s'.queue || HeldTask(s'.actors[a]) == Some(t)
    requires HeldTask(s.actors[a]).Some? ==>
      var t := HeldTask(s.actors[a]).value;
      HeldTask(s'.actors[a]) == Some(t) || t in s'.queue || !(t in s'.status && s'.status[t] == Running)
    ensures RunningIsHeld(s')
  {
  }

  lemma DequeueHeld(c: Config, s: Sys, step: Step)
    requires Enabled(c, s, step) && RunningIsHeld(s) && (step.Enqueue? || step.Take?)
    ensures RunningIsHeld(Apply(c, s, step))
  {
    ActorHeld(s, Apply(c, s, step), if step.Take? then step.actor else 0);
  }

  lemma CompleteHeld(c: Config, s: Sys, a: nat, o: Status, r: bool)
    requires Places(s) && RunningIsHeld(s) && CanComplete(c, s, a, o, r)
    ensures RunningIsHeld(ApplyComplete(c, s, a, o, r))
  {
    assert HeldStatus(s, s.actors[a]);
    ActorHeld(s, ApplyComplete(c, s, a, o, r), a);
  }

  lemma FinishHeld(c: Config, s: Sys, a: nat)
    requires Shape(c, s) && Places(s) && RunningIsHeld(s) && CanFinish(s, a)
    ensures RunningIsHeld(ApplyFinish(s, a))
  {
    assert HeldStatus(s, s.actors[a]) && ActorShape(c, a, s.actors[a]);
    ActorHeld(s, ApplyFinish(s, a), a);
  }

  lemma CancelledHeld(c: Config, s: Sys)
    requires RunningIsHeld(s) && Enabled(c, s, EnqueueCancelled)
    ensures RunningIsHeld(Apply(c, s, EnqueueCancelled))
  {
    ActorHeld(s, Apply(c, s, EnqueueCancelled), 0);
  }

  lemma CheckHeld(c: Config, s: Sys, a: nat)
    requires RunningIsHeld(s) && IsSignalling(s, a)
    ensures CanLoad(s, a) ==> RunningIsHeld(ApplyLoad(c, s, a))
    ensures CanSend(c, s, a) ==> RunningIsHeld(ApplySend(c, s, a))
  {
    if CanLoad(s, a) { ActorHeld(s, ApplyLoad(c, s, a), a); }
    if CanSend(c, s, a) { ActorHeld(s, ApplySend(c, s, a), a); }
  }

  lemma DecrementHeld(c: Config, s: Sys, a: nat, d: TaskId)
    requires RunningIsHeld(s) && CanDecrement(s, a, d)
    ensures RunningIsHeld(ApplyDecrement(c, s, a, d))
  {
    var s' := ApplyDecrement(c, s, a, d);
    assert HeldTask(s'.actors[a]) == HeldTask(s.actors[a]) && s'.status == s.status;
    ActorHeld(s, s', a);
  }

  lemma ExitHeld(c: Config, s: Sys, step: Step)
    requires Enabled(c, s, step) && RunningIsHeld(s)
    requires step.WorkerExit? || step.SchedulerStop? || step.TakeFatal? || step.CancelOutside?
    ensures RunningIsHeld(Apply(c, s, step))
  {
    ActorHeld(s, Apply(c, s, step), if step.WorkerExit? then step.actor else 0);
  }

  lemma StepHeld(c: Config, s: Sys, step: Step)
    requires Shape(c, s) && Enabled(c, s, step) && Places(s) && RunningIsHeld(s)
    ensures RunningIsHeld(Apply(c, s, step))
  {
    match step
    case Receive => ReceiveHeld(c, s);
    case Decrement(a, d) => DecrementHeld(c, s, a, d);
    case Load(a) => CheckHeld(c, s, a);
    case SendReady(a) => CheckHeld(c, s, a);
    case FinishSignals(a) => FinishHeld(c, s, a);
    case Complete(a, o, r) => CompleteHeld(c, s, a, o, r);
    case EnqueueCancelled => CancelledHeld(c, s);
    case Enqueue => DequeueHeld(c, s, step);
    case Take(a) => DequeueHeld(c, s, step);
    case _ => ExitHeld(c, s, step);
  }

  // ---- Quiet steps ----

  /**
   A step of actor a that gives no signal, sends nothing, dispatches nothing and fires nothing.
   Only the pc of a, statuses that do not count as success, and the work queue may change; a
   message may be dropped from the ready channel if its task was dispatched before.
   */
  ghost predicate Quiet(s: Sys, s': Sys, a: nat) {
    && a < |s.actors| == |s'.actors|
    && (forall b :: 0 <= b < |s.actors| && b != a ==> s'.actors[b] == s.actors[b])
    && s'.streamLeft == s.streamLeft && s'.stateLeft == s.stateLeft && s'.dispatched == s.dispatched
    && s'.signals == s.signals && s'.sends == s.sends && s'.order == s.order
    && s'.status.Keys == s.status.Keys
    && (forall t :: t in s.status ==> (s'.status[t].Succeeded() <==> s.status[t].Succeeded()))
    && SameDebts(s.actors[a], s'.actors[a])
    && (s'.ready == s.ready || (s.ready != [] && s.ready[0] in s.dispatched && s'.ready == s.ready[1..]))
  }

  ghost predicate SameDebts(pc: Pc, pc': Pc) {
    if pc.Signalling? && pc.todo != {} then pc'.Signalling? && pc'.kind == pc.kind && pc'.task == pc.task
      && pc'.todo == pc.todo
    else pc'.Signalling? ==> pc'.todo == {}
  }

  predicate NoCheck(pc: Pc) {
    pc.Signalling? ==> pc.phase.Next?
  }

  predicate IsQuiet(c: Config, s: Sys, step: Step)
    requires Enabled(c, s, step)
  {
    match step
    case Receive => ApplyReceive(c, s).dispatched == s.dispatched
    case Decrement(_, _) => false
    case SendReady(_) => false
    case Complete(_, outcome, _) => !outcome.Succeeded()
    case _ => true
  }

  function Actor(step: Step): nat {
    match step
    case Decrement(a, _) => a
    case Load(a) => a
    case SendReady(a) => a
    case FinishSignals(a) => a
    case Take(a) => a
    case Complete(a, _, _) => a
    case WorkerExit(a) => a
    case _ => 0
  }

  lemma QuietReceive(c: Config, s: Sys)
    requires Shape(c, s) && StatusTracksDispatch(c, s) && CanReceive(s) && ApplyReceive(c, s).dispatched == s.dispatched
    requires ReadySound(c, s)
    ensures Quiet(s, ApplyReceive(c, s), 0)
  {
  }

  lemma QuietComplete(c: Config, s: Sys, a: nat, o: Status, r: bool)
    requires Places(s) && CanComplete(c, s, a, o, r) && !o.Succeeded()
    ensures Quiet(s, ApplyComplete(c, s, a, o, r), a)
    ensures NoCheck(ApplyComplete(c, s, a, o, r).actors[a])
  {
    assert HeldStatus(s, s.actors[a]);
  }

  lemma QuietCancelled(c: Config, s: Sys)
    requires Places(s) && Enabled(c, s, EnqueueCancelled)
    ensures Quiet(s, Apply(c, s, EnqueueCancelled), 0)
  {
  }

  lemma QuietLoad(c: Config, s: Sys, a: nat)
    requires CanLoad(s, a)
    ensures Quiet(s, ApplyLoad(c, s, a), a)
  {
  }

  lemma QuietHandOver(c: Config, s: Sys, step: Step)
    requires Shape(c, s) && Enabled(c, s, step)
    requires step.Enqueue? || step.Take? || step.FinishSignals? || step.WorkerExit?
    ensures Quiet(s, Apply(c, s, step), Actor(step))
    ensures NoCheck(s.actors[Actor(step)]) && NoCheck(Apply(c, s, step).actors[Actor(step)])
  {
    match step
    case Enqueue =>
    case Take(a) =>
    case FinishSignals(a) =>
    case WorkerExit(a) =>
  }

  lemma QuietStep(c: Config, s: Sys, step: Step)
    requires Shape(c, s) && StatusTracksDispatch(c, s) && Places(s) && ReadySound(c, s)
    requires Enabled(c, s, step) && IsQuiet(c, s, step)
    ensures Quiet(s, Apply(c, s, step), Actor(step))
    ensures step.Load? || Apply(c, s, step).actors == s.actors
            || (NoCheck(s.actors[Actor(step)]) && NoCheck(Apply(c, s, step).actors[Actor(step)]))
  {
    match step
    case Receive => QuietReceive(c, s);
    case Complete(a, o, r) => QuietComplete(c, s, a, o, r);
    case EnqueueCancelled => QuietCancelled(c, s);
    case Load(a) => QuietLoad(c, s, a);
    case TakeFatal =>
    case CancelOutside =>
    case SchedulerStop =>
    case Decrement(_, _) =>
    case SendReady(_) =>
    case _ => QuietHandOver(c, s, step);
  }
}
