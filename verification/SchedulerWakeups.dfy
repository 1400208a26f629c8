/** Readiness checks, messages and dispatch order, and with them the whole invariant over runs. */
module SchedulerWakeups {
  import opened Prelude
  import opened Graphs
  import opened Scheduler
  import opened SchedulerInvariant
  import opened SchedulerSteps
  import opened SchedulerSignals

  // ---- Readiness checks ----

  lemma PhasesKept(s: Sys, s': Sys, a: nat)
    requires PhasesSound(s) && a < |s.actors| == |s'.actors| && ZerosStay(s, s')
    requires forall b :: 0 <= b < |s.actors| && b != a ==> s'.actors[b] == s.actors[b]
    requires s'.actors[a].Signalling? ==> PhaseSound(s', s'.actors[a].phase)
    ensures PhasesSound(s')
  {
  }

  lemma LoadPhase(c: Config, s: Sys, a: nat)
    requires Shape(c, s) && PhasesSound(s) && CanLoad(s, a)
    ensures PhaseSound(ApplyLoad(c, s, a), ApplyLoad(c, s, a).actors[a].phase)
  {
    assert PhaseSound(s, s.actors[a].phase);
  }

  lemma SendMoves(c: Config, s: Sys, a: nat)
    requires CanSend(c, s, a)
    ensures var s' := ApplySend(c, s, a);
      && |s'.actors| == |s.actors| && (forall b :: 0 <= b < |s.actors| && b != a ==> s'.actors[b] == s.actors[b])
      && s'.actors[a].Signalling? && s'.actors[a].phase.Next?
      && s'.dispatched == s.dispatched && s'.order == s.order
  {
  }

  lemma ActorsOf(c: Config, s: Sys, step: Step)
    requires Inv(c, s) && Enabled(c, s, step)
    ensures var s' := Apply(c, s, step);
      && Actor(step) < |s.actors| == |s'.actors|
      && forall b :: 0 <= b < |s.actors| && b != Actor(step) ==> s'.actors[b] == s.actors[b]
  {
    if IsQuiet(c, s, step) {
      QuietStep(c, s, step);
    } else {
      match step
      case Receive => DispatchFires(c, s);
      case SendReady(a) => SendMoves(c, s, a);
      case Decrement(a, d) => DecrementMoves(c, s, a, d);
      case Complete(a, o, r) => SucceedFires(c, s, a, o, r);
    }
  }

  lemma NewPhase(c: Config, s: Sys, step: Step)
    requires Inv(c, s) && Enabled(c, s, step)
    ensures var s' := Apply(c, s, step);
      Actor(step) < |s'.actors| && (s'.actors[Actor(step)].Signalling? ==> PhaseSound(s', s'.actors[Actor(step)].phase))
  {
    ActorsOf(c, s, step);
    if step.Load? {
      LoadPhase(c, s, step.actor);
    } else if IsQuiet(c, s, step) {
      StepZeros(c, s, step);
      QuietStep(c, s, step);
      assert s.actors[Actor(step)].Signalling? ==> PhaseSound(s, s.actors[Actor(step)].phase);
    } else {
      match step
      case Receive => DispatchFires(c, s);
      case SendReady(a) => SendMoves(c, s, a);
      case Decrement(a, d) => DecrementMoves(c, s, a, d);
      case Complete(a, o, r) => SucceedFires(c, s, a, o, r);
    }
  }

  lemma StepPhases(c: Config, s: Sys, step: Step)
    requires Inv(c, s) && Enabled(c, s, step)
    ensures PhasesSound(Apply(c, s, step))
  {
    StepZeros(c, s, step);
    ActorsOf(c, s, step);
    NewPhase(c, s, step);
    PhasesKept(s, Apply(c, s, step), Actor(step));
  }

  // ---- Messages ----

  lemma SendReadySound(c: Config, s: Sys, a: nat)
    requires Shape(c, s) && PhasesSound(s) && ReadySound(c, s) && CanSend(c, s, a)
    ensures ReadySound(c, ApplySend(c, s, a))
  {
  }

  lemma DispatchReadySound(c: Config, s: Sys)
    requires Shape(c, s) && StatusTracksDispatch(c, s) && ReadySound(c, s) && CanReceive(s)
    ensures ReadySound(c, ApplyReceive(c, s))
  {
    var s' := ApplyReceive(c, s);
    assert s.ready[0] in s.ready;
    assert s.ready == [s.ready[0]] + s.ready[1..];
  }

  lemma SameReadySound(c: Config, s: Sys, s': Sys)
    requires ReadySound(c, s) && ZerosStay(s, s')
    requires s'.ready == s.ready && s'.sends == s.sends && s'.dispatched == s.dispatched
    ensures ReadySound(c, s')
  {
  }

  lemma CompleteMoves(c: Config, s: Sys, a: nat, o: Status, r: bool)
    requires CanComplete(c, s, a, o, r)
    ensures var s' := ApplyComplete(c, s, a, o, r);
      s'.ready == s.ready && s'.sends == s.sends && s'.dispatched == s.dispatched && s'.order == s.order
  {
  }

  lemma ReadyUnchanged(c: Config, s: Sys, step: Step)
    requires Enabled(c, s, step) && !step.SendReady? && !step.Receive?
    ensures var s' := Apply(c, s, step);
      s'.ready == s.ready && s'.sends == s.sends && s'.dispatched == s.dispatched && s'.order == s.order
  {
    match step
    case Decrement(a, d) => DecrementMoves(c, s, a, d);
    case Complete(a, o, r) => CompleteMoves(c, s, a, o, r);
    case _ =>
  }

  lemma StepReadySound(c: Config, s: Sys, step: Step)
    requires Inv(c, s) && Enabled(c, s, step)
    ensures ReadySound(c, Apply(c, s, step))
  {
    StepZeros(c, s, step);
    match step
    case Receive => DispatchReadySound(c, s);
    case SendReady(a) => SendReadySound(c, s, a);
    case _ =>
      ReadyUnchanged(c, s, step);
      SameReadySound(c, s, Apply(c, s, step));
  }

  // ---- Wake-ups ----

  function One(b: bool): nat {
    if b then 1 else 0
  }

  lemma CheckingMoves(s: Sys, s': Sys, a: nat, d: TaskId)
    requires a < |s.actors| == |s'.actors|
    requires forall b :: 0 <= b < |s.actors| && b != a ==> s'.actors[b] == s.actors[b]
    ensures |Checking(s', d)| + One(Checks(s.actors[a], d)) == |Checking(s, d)| + One(Checks(s'.actors[a], d))
    ensures Checks(s'.actors[a], d) ==> |Checking(s', d)| >= 1
  {
    var others := Checking(s, d) - {a};
    assert Checking(s, d) == if Checks(s.actors[a], d) then others + {a} else others;
    assert Checking(s', d) == if Checks(s'.actors[a], d) then others + {a} else others;
  }

  /** What a step must not disturb for one task d: the check balance against its zero crossings. */
  ghost predicate Balanced(c: Config, s: Sys, d: TaskId)
    requires d in s.streamLeft && d in s.stateLeft
  {
    && Sent(s, d) + |Checking(s, d)| <= Crossings(c, s, d)
    && (s.BothZero(d) ==> Sent(s, d) + |Checking(s, d)| >= 1)
  }

  lemma QuietWake(c: Config, s: Sys, s': Sys, a: nat)
    requires Shape(c, s) && WakeUps(c, s)
    requires a < |s.actors| == |s'.actors|
    requires forall b :: 0 <= b < |s.actors| && b != a ==> s'.actors[b] == s.actors[b]
    requires s'.streamLeft == s.streamLeft && s'.stateLeft == s.stateLeft && s'.sends == s.sends
    requires s'.actors == s.actors || (NoCheck(s.actors[a]) && NoCheck(s'.actors[a]))
    ensures WakeUps(c, s')
  {
    forall d | d in c.g.nodes && d in s'.streamLeft && d in s'.stateLeft ensures Balanced(c, s', d) {
      assert Balanced(c, s, d);
      CheckingMoves(s, s', a, d);
    }
  }

  lemma LoadMoves(c: Config, s: Sys, a: nat)
    requires CanLoad(s, a)
    ensures var s' := ApplyLoad(c, s, a);
      && |s'.actors| == |s.actors| && (forall b :: 0 <= b < |s.actors| && b != a ==> s'.actors[b] == s.actors[b])
      && s'.streamLeft == s.streamLeft && s'.stateLeft == s.stateLeft && s'.sends == s.sends
      && (forall d :: Checks(s'.actors[a], d) ==> Checks(s.actors[a], d))
      && (forall d :: Checks(s.actors[a], d) && !Checks(s'.actors[a], d) ==> !s.BothZero(d))
  {
  }

  lemma LoadWake(c: Config, s: Sys, a: nat)
    requires Shape(c, s) && WakeUps(c, s) && CanLoad(s, a)
    ensures WakeUps(c, ApplyLoad(c, s, a))
  {
    var s' := ApplyLoad(c, s, a);
    LoadMoves(c, s, a);
    forall d | d in c.g.nodes && d in s'.streamLeft && d in s'.stateLeft ensures Balanced(c, s', d) {
      assert Balanced(c, s, d);
      CheckingMoves(s, s', a, d);
    }
  }

  lemma SendWake(c: Config, s: Sys, a: nat)
    requires Shape(c, s) && WakeUps(c, s) && CanSend(c, s, a)
    ensures WakeUps(c, ApplySend(c, s, a))
  {
    var s' := ApplySend(c, s, a);
    var sent := s.actors[a].phase.dep;
    SendMoves(c, s, a);
    assert multiset(s'.sends) == multiset(s.sends) + multiset{sent};
    forall d | d in c.g.nodes && d in s'.streamLeft && d in s'.stateLeft ensures Balanced(c, s', d) {
      assert Balanced(c, s, d);
      CheckingMoves(s, s', a, d);
      assert Sent(s', d) == Sent(s, d) + One(d == sent);
      assert Checks(s.actors[a], d) <==> d == sent;
    }
  }

  /** What a decrement leaves as it is, and where it starts a check. */
  lemma DecrementStarts(c: Config, s: Sys, a: nat, d: TaskId, e: TaskId)
    requires CanDecrement(s, a, d)
    ensures var s', k := ApplyDecrement(c, s, a, d), s.actors[a].kind;
      && s'.sends == s.sends && !Checks(s.actors[a], e)
      && (e != d || s.actors[a].task !in c.g.Deps(k, d) ==> !Checks(s'.actors[a], e))
      && (s.actors[a].task in c.g.Deps(k, d) ==> (Checks(s'.actors[a], d) <==> s.Left(k)[d] == 1))
  {
  }

  /** Which counters it changes. */
  lemma DecrementLowers(c: Config, s: Sys, a: nat, d: TaskId, j: Kind, e: TaskId)
    requires CanDecrement(s, a, d) && e in s.Left(j)
    ensures var s', k := ApplyDecrement(c, s, a, d), s.actors[a].kind;
      && e in s'.Left(j)
      && s'.Left(j)[e] == s.Left(j)[e] - One(e == d && j == k && s.actors[a].task in c.g.Deps(k, d))
  {
  }

  lemma DecrementCheck(c: Config, s: Sys, a: nat, d: TaskId, e: TaskId)
    requires Shape(c, s) && CanDecrement(s, a, d) && e in c.g.nodes
    requires s.actors[a].task in c.g.Deps(s.actors[a].kind, d) ==> s.Left(s.actors[a].kind)[d] >= 1
    ensures var s' := ApplyDecrement(c, s, a, d);
      && s'.sends == s.sends && !Checks(s.actors[a], e)
      && e in s'.streamLeft && e in s'.stateLeft
      && Crossings(c, s', e) == Crossings(c, s, e) + One(Checks(s'.actors[a], e))
      && (s'.BothZero(e) ==> s.BothZero(e) || Checks(s'.actors[a], e))
  {
    DecrementStarts(c, s, a, d, e);
    DecrementLowers(c, s, a, d, Stream, e);
    DecrementLowers(c, s, a, d, State, e);
  }

  lemma DecrementWake(c: Config, s: Sys, a: nat, d: TaskId)
    requires Shape(c, s) && WakeUps(c, s) && CanDecrement(s, a, d)
    requires s.actors[a].task in c.g.Deps(s.actors[a].kind, d) ==> s.Left(s.actors[a].kind)[d] >= 1
    ensures WakeUps(c, ApplyDecrement(c, s, a, d))
  {
    var s' := ApplyDecrement(c, s, a, d);
    DecrementMoves(c, s, a, d);
    forall e | e in c.g.nodes && e in s'.streamLeft && e in s'.stateLeft ensures Balanced(c, s', e) {
      assert Balanced(c, s, e);
      CheckingMoves(s, s', a, e);
      DecrementCheck(c, s, a, d, e);
    }
  }

  lemma OtherWake(c: Config, s: Sys, step: Step)
    requires Inv(c, s) && Enabled(c, s, step) && !step.Load? && !step.SendReady? && !step.Decrement?
    ensures WakeUps(c, Apply(c, s, step))
  {
    OtherCounters(c, s, step);
    ActorsOf(c, s, step);
    OtherChecks(c, s, step);
    QuietWake(c, s, Apply(c, s, step), Actor(step));
  }

  lemma StepWakeUps(c: Config, s: Sys, step: Step)
    requires Inv(c, s) && Enabled(c, s, step)
    ensures WakeUps(c, Apply(c, s, step))
  {
    match step
    case Load(a) => LoadWake(c, s, a);
    case SendReady(a) => SendWake(c, s, a);
    case Decrement(a, d) =>
      DecrementSignals(c, s, a, d);
      DecrementCounters(c, s, a, d);
      DecrementWake(c, s, a, d);
    case _ => OtherWake(c, s, step);
  }

  lemma OtherChecks(c: Config, s: Sys, step: Step)
    requires Inv(c, s) && Enabled(c, s, step) && !step.Load? && !step.SendReady? && !step.Decrement?
    ensures var s' := Apply(c, s, step);
      && Actor(step) < |s.actors| == |s'.actors| && s'.sends == s.sends
      && (s'.actors == s.actors || (NoCheck(s.actors[Actor(step)]) && NoCheck(s'.actors[Actor(step)])))
  {
    if IsQuiet(c, s, step) {
      QuietStep(c, s, step);
    } else {
      match step
      case Receive => DispatchFires(c, s);
      case Complete(a, o, r) => SucceedFires(c, s, a, o, r);
    }
  }

  // ---- Dispatch order ----

  /** When both counters of n are zero, all its producers have fired. */
  lemma ZeroMeansMet(c: Config, s: Sys, k: Kind, n: TaskId, p: TaskId)
    requires Inv(c, s) && s.BothZero(n) && p in c.g.Deps(k, n)
    ensures Signal(k, p, n) in s.signals && Fired(s, k, p) && p in s.dispatched
  {
    assert n in c.g.nodes;
    assert s.Left(k)[n] == |Waiting(c, s, k, n)|;
    assert Waiting(c, s, k, n) == {};
    assert p !in Waiting(c, s, k, n);
    assert p in c.g.nodes;
  }

  /** When both counters of n are zero, all its producers have been dispatched. */
  lemma ReadyDepsDispatched(c: Config, s: Sys, n: TaskId)
    requires Inv(c, s) && s.BothZero(n)
    ensures forall p :: c.g.Edge(p, n) ==> p in s.dispatched
  {
    forall p | c.g.Edge(p, n) ensures p in s.dispatched {
      if p in c.g.Deps(Stream, n) { ZeroMeansMet(c, s, Stream, n, p); } else { ZeroMeansMet(c, s, State, n, p); }
    }
  }

  lemma OrderExtends(g: Graph, order: seq<TaskId>, tasks: set<TaskId>, t: TaskId)
    requires TopologicalOrder(g, order, tasks) && t !in tasks
    requires forall p :: g.Edge(p, t) ==> p in tasks
    ensures TopologicalOrder(g, order + [t], tasks + {t})
  {
    var longer := order + [t];
    assert forall p :: p in tasks <==> p in order;
    assert NoDup(longer);
    forall i, p | 0 <= i < |longer| && g.Edge(p, longer[i]) ensures p in longer[..i] {
      if i < |order| { assert longer[..i] == order[..i]; } else { assert longer[..i] == order; }
    }
  }

  lemma DispatchMoves(c: Config, s: Sys)
    requires CanReceive(s)
    ensures var s' := ApplyReceive(c, s);
      || (s'.order == s.order && s'.dispatched == s.dispatched)
      || (s.ready[0] !in s.dispatched && s'.order == s.order + [s.ready[0]]
           && s'.dispatched == s.dispatched + {s.ready[0]})
  {
  }

  lemma DispatchTopological(c: Config, s: Sys)
    requires Inv(c, s) && CanReceive(s)
    ensures Topological(c, ApplyReceive(c, s))
  {
    var t := s.ready[0];
    assert t in s.ready && t in s.sends;
    DispatchMoves(c, s);
    ReadyDepsDispatched(c, s, t);
    if t !in s.dispatched { OrderExtends(c.g, s.order, s.dispatched, t); }
  }

  lemma StepTopological(c: Config, s: Sys, step: Step)
    requires Inv(c, s) && Enabled(c, s, step)
    ensures Topological(c, Apply(c, s, step))
  {
    match step
    case Receive => DispatchTopological(c, s);
    case SendReady(a) => SendMoves(c, s, a);
    case _ => ReadyUnchanged(c, s, step);
  }

  // ---- The invariant over runs ----

  lemma InitCounts(c: Config, s: Sys)
    requires c.g.WellFormed() && Init(c, s)
    ensures CountersExact(c, s) && WakeUps(c, s)
  {
    forall k, n | n in c.g.nodes ensures s.Left(k)[n] == |Waiting(c, s, k, n)| {
      assert Waiting(c, s, k, n) == c.g.Deps(k, n);
    }
    forall d | d in c.g.nodes ensures Balanced(c, s, d) {
      assert Checking(s, d) == {};
      assert d in s.ready <==> d in InitiallyReady(c.g);
      NoDupCount(s.ready, d);
    }
  }

  lemma InitReady(c: Config, s: Sys)
    requires c.g.WellFormed() && Init(c, s)
    ensures ReadySound(c, s) && SignalsExact(c, s)
  {
    forall n | n in s.ready ensures n in c.g.nodes && s.BothZero(n) {
      assert n in InitiallyReady(c.g);
    }
  }

  lemma InitActors(c: Config, s: Sys)
    requires Init(c, s)
    ensures Shape(c, s) && StatusTracksDispatch(c, s) && Places(s) && RunningIsHeld(s) && PhasesSound(s)
  {
  }

  lemma InitInv(c: Config, s: Sys)
    requires c.g.WellFormed() && Init(c, s)
    ensures Inv(c, s)
  {
    InitActors(c, s);
    InitCounts(c, s);
    InitReady(c, s);
    assert s.order == [] && s.dispatched == {};
  }

  lemma NoDupCount(q: seq<TaskId>, d: TaskId)
    requires NoDup(q)
    ensures multiset(q)[d] == One(d in q)
  {
    if q != [] {
      var init := q[..|q| - 1];
      assert q == init + [q[|q| - 1]];
      NoDupCount(init, d);
    }
  }

  /** Every step keeps the invariant. */
  lemma StepInv(c: Config, s: Sys, step: Step)
    requires Inv(c, s) && Enabled(c, s, step)
    ensures Inv(c, Apply(c, s, step))
  {
    StepShape(c, s, step);
    StepPlaces(c, s, step);
    StepHeld(c, s, step);
    StepSignals(c, s, step);
    StepCounters(c, s, step);
    StepPhases(c, s, step);
    StepReadySound(c, s, step);
    StepWakeUps(c, s, step);
    StepTopological(c, s, step);
  }

  /** The invariant holds at the end of every run. */
  lemma {:induction false} RunInv(c: Config, s: Sys, run: seq<Step>)
    requires Inv(c, s) && IsRun(c, s, run)
    ensures Inv(c, After(c, s, run))
    decreases |run|
  {
    if run != [] {
      StepInv(c, s, run[0]);
      RunInv(c, Apply(c, s, run[0]), run[1..]);
    }
  }
}
