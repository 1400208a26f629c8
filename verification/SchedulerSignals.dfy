/** Signals, counters, readiness checks and dispatch order: what every step keeps of them. */
module SchedulerSignals {
  import opened Graphs
  import opened Scheduler
  import opened SchedulerInvariant
  import opened SchedulerSteps

  // ---- Signals ----

  lemma QuietSignals(c: Config, s: Sys, s': Sys, a: nat)
    requires SignalsExact(c, s) && Quiet(s, s', a)
    ensures SignalsExact(c, s')
  {
  }

  /** Actor a starts signalling for t, whose signals of kind k all become due at once. */
  ghost predicate Fires(c: Config, s: Sys, s': Sys, a: nat, k: Kind, t: TaskId) {
    && a < |s.actors| == |s'.actors|
    && s'.signals == s.signals && s'.sends == s.sends
    && s'.streamLeft == s.streamLeft && s'.stateLeft == s.stateLeft
    && !Fired(s, k, t)
    && (forall j, p :: Fired(s', j, p) <==> Fired(s, j, p) || (j == k && p == t))
    && (forall b :: 0 <= b < |s.actors| && b != a ==> s'.actors[b] == s.actors[b])
    && !s.actors[a].Signalling? && s'.actors[a] == Signalling(k, t, c.g.RequiredBy(t), Next)
  }

  lemma FireSignals(c: Config, s: Sys, s': Sys, a: nat, k: Kind, t: TaskId)
    requires c.g.WellFormed() && SignalsExact(c, s) && Fires(c, s, s', a, k, t)
    ensures SignalsExact(c, s')
  {
  }

  lemma DebtorIsUnique(c: Config, s: Sys, a: nat, d: TaskId)
    requires Places(s) && StatusTracksDispatch(c, s) && Shape(c, s)
    requires CanDecrement(s, a, d)
    ensures Fired(s, s.actors[a].kind, s.actors[a].task)
    ensures forall b, e :: 0 <= b < |s.actors| && b != a ==> !Owes(s.actors[b], s.actors[a].kind, s.actors[a].task, e)
  {
  }

  lemma DecrementMoves(c: Config, s: Sys, a: nat, d: TaskId)
    requires CanDecrement(s, a, d)
    ensures var s' := ApplyDecrement(c, s, a, d);
      && |s'.actors| == |s.actors| && (forall b :: 0 <= b < |s.actors| && b != a ==> s'.actors[b] == s.actors[b])
      && s'.actors[a].Signalling? && (s'.actors[a].phase.Next? || s'.actors[a].phase.LoadStream?)
      && s'.ready == s.ready && s'.sends == s.sends && s'.dispatched == s.dispatched && s'.order == s.order
  {
  }

  /** A decrement settles exactly one debt of actor a. */
  lemma DecrementOwes(c: Config, s: Sys, a: nat, d: TaskId, j: Kind, p: TaskId, n: TaskId)
    requires CanDecrement(s, a, d)
    ensures Owes(ApplyDecrement(c, s, a, d).actors[a], j, p, n) <==>
      (Owes(s.actors[a], j, p, n) && Signal(j, p, n) != Signal(s.actors[a].kind, s.actors[a].task, d))
  {
    var pc, pc' := s.actors[a], ApplyDecrement(c, s, a, d).actors[a];
    assert pc'.Signalling? && pc'.kind == pc.kind && pc'.task == pc.task && pc'.todo == pc.todo - {d};
  }

  lemma DebtStays(s: Sys, s': Sys, a: nat, j: Kind, p: TaskId, n: TaskId)
    requires a < |s.actors| == |s'.actors| && forall b :: 0 <= b < |s.actors| && b != a ==> s'.actors[b] == s.actors[b]
    requires Owes(s'.actors[a], j, p, n) ==> Owes(s.actors[a], j, p, n)
    ensures StillToSignal(s', j, p, n) ==> StillToSignal(s, j, p, n)
    ensures StillToSignal(s, j, p, n) && Owes(s.actors[a], j, p, n) == Owes(s'.actors[a], j, p, n) ==>
      StillToSignal(s', j, p, n)
  {
    if b :| 0 <= b < |s'.actors| && Owes(s'.actors[b], j, p, n) { assert Owes(s.actors[b], j, p, n); }
    if b :| 0 <= b < |s.actors| && Owes(s.actors[b], j, p, n) { assert b != a ==> Owes(s'.actors[b], j, p, n); }
  }

  lemma DebtsMove(c: Config, s: Sys, s': Sys, a: nat, d: TaskId, j: Kind, p: TaskId, n: TaskId)
    requires CanDecrement(s, a, d) && s' == ApplyDecrement(c, s, a, d)
    requires forall b, e :: 0 <= b < |s.actors| && b != a ==> !Owes(s.actors[b], s.actors[a].kind, s.actors[a].task, e)
    ensures StillToSignal(s', j, p, n) <==>
      (StillToSignal(s, j, p, n) && Signal(j, p, n) != Signal(s.actors[a].kind, s.actors[a].task, d))
  {
    DecrementOwes(c, s, a, d, j, p, n);
    DecrementMoves(c, s, a, d);
    DebtStays(s, s', a, j, p, n);
  }

  lemma DecrementDebts(c: Config, s: Sys, s': Sys, a: nat, d: TaskId, j: Kind, p: TaskId, n: TaskId)
    requires Shape(c, s) && StatusTracksDispatch(c, s) && Places(s) && CanDecrement(s, a, d)
    requires s' == ApplyDecrement(c, s, a, d)
    ensures StillToSignal(s', j, p, n) <==>
      (StillToSignal(s, j, p, n) && Signal(j, p, n) != Signal(s.actors[a].kind, s.actors[a].task, d))
  {
    DebtorIsUnique(c, s, a, d);
    DebtsMove(c, s, s', a, d, j, p, n);
  }

  lemma DecrementSignals(c: Config, s: Sys, a: nat, d: TaskId)
    requires Shape(c, s) && StatusTracksDispatch(c, s) && Places(s) && SignalsExact(c, s) && CanDecrement(s, a, d)
    ensures SignalsExact(c, ApplyDecrement(c, s, a, d))
    ensures Signal(s.actors[a].kind, s.actors[a].task, d) !in s.signals
  {
    var s' := ApplyDecrement(c, s, a, d);
    var k, t := s.actors[a].kind, s.actors[a].task;
    DebtorIsUnique(c, s, a, d);
    assert Owes(s.actors[a], k, t, d) && StillToSignal(s, k, t, d);
    forall j, p, n
      ensures Signal(j, p, n) in s'.signals <==>
        (p in c.g.Deps(j, n) && Fired(s', j, p) && !StillToSignal(s', j, p, n))
    {
      DecrementDebts(c, s, s', a, d, j, p, n);
      assert Fired(s', j, p) <==> Fired(s, j, p);
    }
  }

  lemma SucceedFires(c: Config, s: Sys, a: nat, o: Status, r: bool)
    requires Places(s) && CanComplete(c, s, a, o, r) && o.Succeeded()
    ensures Fires(c, s, ApplyComplete(c, s, a, o, r), a, State, s.actors[a].task)
  {
  }

  lemma DispatchFires(c: Config, s: Sys)
    requires StatusTracksDispatch(c, s) && CanReceive(s) && ApplyReceive(c, s).dispatched != s.dispatched
    ensures Fires(c, s, ApplyReceive(c, s), 0, Stream, s.ready[0])
  {
    var s', t := ApplyReceive(c, s), s.ready[0];
    assert s'.dispatched == s.dispatched + {t} && s'.status == s.status[t := Running];
    forall j, p ensures Fired(s', j, p) <==> Fired(s, j, p) || (j == Stream && p == t) {
      assert s.status[t] == Pending;
    }
  }

  lemma SendSignals(c: Config, s: Sys, a: nat)
    requires SignalsExact(c, s) && CanSend(c, s, a)
    ensures SignalsExact(c, ApplySend(c, s, a))
  {
    var s' := ApplySend(c, s, a);
    forall k, p, n
      ensures StillToSignal(s', k, p, n) <==> StillToSignal(s, k, p, n)
      ensures Fired(s', k, p) <==> Fired(s, k, p)
    {
      if b :| 0 <= b < |s.actors| && Owes(s.actors[b], k, p, n) { assert Owes(s'.actors[b], k, p, n); }
      if b :| 0 <= b < |s'.actors| && Owes(s'.actors[b], k, p, n) { assert Owes(s.actors[b], k, p, n); }
    }
  }

  lemma StepSignals(c: Config, s: Sys, step: Step)
    requires Inv(c, s) && Enabled(c, s, step)
    ensures SignalsExact(c, Apply(c, s, step))
  {
    var s' := Apply(c, s, step);
    if IsQuiet(c, s, step) {
      QuietStep(c, s, step);
      QuietSignals(c, s, s', Actor(step));
    } else {
      match step
      case Receive => DispatchFires(c, s); FireSignals(c, s, s', 0, Stream, s.ready[0]);
      case Decrement(a, d) => DecrementSignals(c, s, a, d);
      case Complete(a, o, r) => SucceedFires(c, s, a, o, r); FireSignals(c, s, s', a, State, s.actors[a].task);
      case SendReady(a) => SendSignals(c, s, a);
    }
  }

  // ---- Counters ----

  /** The decrement takes one producer from those that one task waits for. */
  lemma DecrementWaiting(c: Config, s: Sys, a: nat, d: TaskId, j: Kind, n: TaskId)
    requires CanDecrement(s, a, d)
    ensures var s', k, t := ApplyDecrement(c, s, a, d), s.actors[a].kind, s.actors[a].task;
      Waiting(c, s', j, n) == if j == k && n == d then Waiting(c, s, j, n) - {t} else Waiting(c, s, j, n)
  {
  }

  lemma DecrementCounter(c: Config, s: Sys, a: nat, d: TaskId, j: Kind, n: TaskId)
    requires Shape(c, s) && CanDecrement(s, a, d) && Signal(s.actors[a].kind, s.actors[a].task, d) !in s.signals
    requires n in s.Left(j) && s.Left(j)[n] == |Waiting(c, s, j, n)|
    ensures var s' := ApplyDecrement(c, s, a, d); n in s'.Left(j) && s'.Left(j)[n] == |Waiting(c, s', j, n)|
  {
    var k, t := s.actors[a].kind, s.actors[a].task;
    DecrementWaiting(c, s, a, d, j, n);
    if j == k && n == d && t !in c.g.Deps(k, d) { assert Waiting(c, s, j, n) - {t} == Waiting(c, s, j, n); }
  }

  lemma DecrementCounters(c: Config, s: Sys, a: nat, d: TaskId)
    requires Shape(c, s) && CountersExact(c, s) && CanDecrement(s, a, d)
    requires Signal(s.actors[a].kind, s.actors[a].task, d) !in s.signals
    ensures CountersExact(c, ApplyDecrement(c, s, a, d))
    ensures s.actors[a].task in c.g.Deps(s.actors[a].kind, d) ==> s.Left(s.actors[a].kind)[d] >= 1
  {
    var s' := ApplyDecrement(c, s, a, d);
    var k, t := s.actors[a].kind, s.actors[a].task;
    forall j, n | n in c.g.nodes && n in s'.Left(j) ensures s'.Left(j)[n] == |Waiting(c, s', j, n)| {
      DecrementCounter(c, s, a, d, j, n);
    }
    if t in c.g.Deps(k, d) {
      assert t in Waiting(c, s, k, d);
      assert |Waiting(c, s, k, d)| >= 1;
    }
  }

  lemma SameCounters(c: Config, s: Sys, s': Sys)
    requires CountersExact(c, s)
    requires s'.signals == s.signals && s'.streamLeft == s.streamLeft && s'.stateLeft == s.stateLeft
    ensures CountersExact(c, s')
  {
    forall j, n | n in c.g.nodes && n in s'.Left(j) ensures s'.Left(j)[n] == |Waiting(c, s', j, n)| {
      assert Waiting(c, s', j, n) == Waiting(c, s, j, n);
      assert s.Left(j)[n] == |Waiting(c, s, j, n)|;
    }
  }

  lemma StepCounters(c: Config, s: Sys, step: Step)
    requires Inv(c, s) && Enabled(c, s, step)
    ensures CountersExact(c, Apply(c, s, step))
  {
    var s' := Apply(c, s, step);
    if step.Decrement? {
      DecrementSignals(c, s, step.actor, step.dep);
      DecrementCounters(c, s, step.actor, step.dep);
    } else {
      OtherCounters(c, s, step);
      SameCounters(c, s, s');
    }
  }

  lemma OtherCounters(c: Config, s: Sys, step: Step)
    requires Inv(c, s) && Enabled(c, s, step) && !step.Decrement?
    ensures var s' := Apply(c, s, step);
      s'.signals == s.signals && s'.streamLeft == s.streamLeft && s'.stateLeft == s.stateLeft
  {
    if IsQuiet(c, s, step) {
      QuietStep(c, s, step);
    } else {
      match step
      case Receive => DispatchFires(c, s);
      case SendReady(a) =>
      case Complete(a, o, r) => SucceedFires(c, s, a, o, r);
    }
  }

  /** A counter that is zero is never decremented again. */
  ghost predicate ZerosStay(s: Sys, s': Sys) {
    && (forall n :: n in s.streamLeft && s.streamLeft[n] == 0 ==> n in s'.streamLeft && s'.streamLeft[n] == 0)
    && (forall n :: n in s.stateLeft && s.stateLeft[n] == 0 ==> n in s'.stateLeft && s'.stateLeft[n] == 0)
  }

  lemma DecrementZeros(c: Config, s: Sys, a: nat, d: TaskId)
    requires CanDecrement(s, a, d)
    requires s.actors[a].task in c.g.Deps(s.actors[a].kind, d) ==> s.Left(s.actors[a].kind)[d] >= 1
    ensures ZerosStay(s, ApplyDecrement(c, s, a, d))
  {
  }

  lemma StepZeros(c: Config, s: Sys, step: Step)
    requires Inv(c, s) && Enabled(c, s, step)
    ensures ZerosStay(s, Apply(c, s, step))
  {
    if step.Decrement? {
      DecrementSignals(c, s, step.actor, step.dep);
      DecrementCounters(c, s, step.actor, step.dep);
      DecrementZeros(c, s, step.actor, step.dep);
    } else {
      OtherCounters(c, s, step);
    }
  }
}
