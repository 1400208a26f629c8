/** Two small flows of which it is known exactly when they come to their end. */
module StreamPair {
  import opened Prelude
  import opened Graphs
  import opened ChannelTopology
  import opened StreamFlow
  import opened StreamBlocks
  import opened StreamGates

  const P: TaskId := "p"
  const C: TaskId := "c"
  const LINK := Edge(C, 0)

  /**
   What is around the pair: the capacity of its channel, the workers, which of the two are skipped, and
   whether c waits for p's state.
   */
  datatype Setting = Setting(capacity: nat, workers: nat, skipped: set<TaskId>, gated: bool)

  /** p streams n records to c. */
  function Pair(n: nat, g: Setting): Flow {
    Flow([P, C], map[LINK := P], map[P := [LINK], C := []], map[P := {}, C := if g.gated then {P} else {}], {},
         map[P := n, C := 0], g.skipped, g.capacity, g.workers)
  }

  lemma PairOrder(n: nat, g: Setting)
    ensures Pair(n, g).Before(P, C)
  {
    assert [P, C][1..] == [C] && Position([C], C) == 0;
  }

  lemma PairIsValid(n: nat, g: Setting)
    ensures Pair(n, g).Valid()
  {
    PairOrder(n, g);
  }

  lemma PairIsSource(n: nat, g: Setting)
    ensures Pair(n, g).IsSource(P)
  {
  }

  /**
   c must be skipped if p is. If p is not, but nobody reads while it writes, because c is skipped, waits
   for p's state or has no worker, then the channel must hold all of p's records.
   */
  predicate PairCompletes(n: nat, g: Setting) {
    if P in g.skipped then C in g.skipped else (C in g.skipped || g.gated || g.workers == 1 ==> n <= g.capacity)
  }

  lemma PairShut(n: nat, g: Setting)
    ensures C in g.skipped || g.gated || g.workers == 1 <==> Shut(Pair(n, g), LINK)
  {
    var f := Pair(n, g);
    PairOrder(n, g);
    assert f.Waits(C, P) <==> g.gated;
    assert forall x :: f.Waits(C, x) ==> x == P;
    assert Outlasts(f, P, P);
    PairBehind(n, g);
  }

  lemma PairBehind(n: nat, g: Setting)
    ensures !Behind(Pair(n, g), P, P)
    ensures Behind(Pair(n, g), P, C) ==> g.gated
  {
    var f := Pair(n, g);
    assert forall x :: !f.Waits(P, x);
    assert forall e :: !f.IsInput(P, e);
    assert !Behind(f, P, P);
  }

  lemma PairDispatch(n: nat, g: Setting, s: Sys)
    requires C in s.mode && s.mode[C].Pending? && Started(s, P) && !g.gated
    ensures Enabled(Pair(n, g), s, Dispatch(C))
  {
  }

  lemma PairTake(f: Flow, s: Sys)
    requires QueueOk(s) && s.mode.Keys == {P, C} && Executes(s, P) && s.mode[C].Queued? && f.workers >= 2
    ensures Enabled(f, s, Take)
  {
    assert C in s.queue && Busy(s) == {P};
  }

  lemma PairGoesOn(n: nat, g: Setting, s: Sys)
    requires QueueOk(s) && s.mode.Keys == {P, C} && Writes(s, P) && !Executes(s, C) && !HasEnded(s, C)
    requires g.workers >= 2 && !g.gated
    ensures !Stuck(Pair(n, g), s)
  {
    if s.mode[C].Queued? { PairTake(Pair(n, g), s); } else { PairDispatch(n, g, s); }
  }

  lemma PairHoldsAll(n: nat, g: Setting)
    ensures HoldsAll(Pair(n, g), LINK) <==> n <= g.capacity
  {
    PairIsSource(n, g);
  }

  lemma ConsumerHasNotEnded(f: Flow, s: Sys, e: Edge)
    requires Reachable(f, s) && e in f.edges && e.consumer !in f.skipped && Writes(s, f.edges[e])
    ensures f.edges[e] in s.mode && e.consumer in s.mode && QueueOk(s) && s.mode.Keys == Elements(f.tasks)
    ensures !HasEnded(s, e.consumer)
  {
    ReachableFacts(f, s);
    EdgeEnds(f, s, e);
    if HasEnded(s, e.consumer) { ConsumerEnded(f, s, e); }
  }

  lemma NeverFullAt(f: Flow, s: Sys, e: Edge)
    requires Reachable(f, s) && HoldsAll(f, e)
    ensures !IsFull(f, s, e)
  {
    ReachableFacts(f, s);
    NeverFull(f, s, e);
  }

  lemma SkippedDoNotWrite(f: Flow, s: Sys, t: TaskId)
    requires Reachable(f, s) && t in f.skipped
    ensures !Writes(s, t)
  {
    ReachableFacts(f, s);
  }

  lemma PairNeverFull(n: nat, g: Setting, s: Sys)
    requires Reachable(Pair(n, g), s) && (P in g.skipped || n <= g.capacity)
    ensures !IsFull(Pair(n, g), s, LINK)
  {
    if P in g.skipped {
      SkippedDoNotWrite(Pair(n, g), s, P);
    } else {
      PairHoldsAll(n, g);
      NeverFullAt(Pair(n, g), s, LINK);
    }
  }

  /** While p writes, c is dispatched and taken, unless the channel is shut. */
  lemma PairNotFull(n: nat, g: Setting, s: Sys)
    requires Reachable(Pair(n, g), s) && Stuck(Pair(n, g), s) && g.workers >= 1 && PairCompletes(n, g)
    ensures !FullToNobody(Pair(n, g), s, LINK)
  {
    if P in g.skipped || n <= g.capacity {
      PairNeverFull(n, g, s);
    } else if FullToNobody(Pair(n, g), s, LINK) {
      ConsumerHasNotEnded(Pair(n, g), s, LINK);
      assert s.mode.Keys == {P, C};
      PairGoesOn(n, g, s);
    }
  }

  lemma NotOpenFromNobody(f: Flow, s: Sys, e: Edge)
    requires Reachable(f, s) && e in f.edges && (f.edges[e] in f.skipped ==> e.consumer in f.skipped)
    ensures !OpenFromNobody(f, s, e)
  {
    ReachableFacts(f, s);
  }

  lemma OneChannel(f: Flow, s: Sys, e: Edge)
    requires Reachable(f, s) && Stuck(f, s) && f.workers >= 1 && f.edges.Keys == {e} && f.late == {}
    requires !FullToNobody(f, s, e) && (f.edges[e] in f.skipped ==> e.consumer in f.skipped)
    ensures AllEnded(s)
  {
    NotOpenFromNobody(f, s, e);
    assert forall d :: BlockedAt(f, s, d) ==> d in f.edges.Keys;
    StuckIsBlocked(f, s);
  }

  /** If the condition holds, a state that cannot go on has both tasks ended. */
  lemma PairEnds(n: nat, g: Setting, s: Sys)
    requires Reachable(Pair(n, g), s) && Stuck(Pair(n, g), s) && g.workers >= 1 && PairCompletes(n, g)
    ensures AllEnded(s)
  {
    PairNotFull(n, g, s);
    OneChannel(Pair(n, g), s, LINK);
  }

  lemma PairReaches(n: nat, g: Setting, run: seq<Step>)
    requires IsRun(Pair(n, g), Start(Pair(n, g)), run)
    ensures Reachable(Pair(n, g), After(Pair(n, g), Start(Pair(n, g)), run))
  {
    PairIsValid(n, g);
  }

  lemma PairNever(n: nat, g: Setting, end: Sys)
    requires Reachable(Pair(n, g), end) && !PairCompletes(n, g)
    ensures !AllEnded(end)
  {
    if P in g.skipped {
      SkippedProducerBlocks(Pair(n, g), end, LINK);
    } else {
      PairIsSource(n, g);
      PairShut(n, g);
      PairHoldsAll(n, g);
      ShutNeverCompletes(Pair(n, g), end, LINK);
    }
  }

  /**
   Exactly when a producer and its consumer complete. If the condition holds, every run that can go no
   further has both tasks ended; if it does not, no run ever has.
   */
  lemma PairCompletesIff(n: nat, g: Setting, run: seq<Step>)
    requires g.workers >= 1 && IsRun(Pair(n, g), Start(Pair(n, g)), run)
    ensures var end := After(Pair(n, g), Start(Pair(n, g)), run);
      && (PairCompletes(n, g) && Stuck(Pair(n, g), end) ==> AllEnded(end))
      && (!PairCompletes(n, g) ==> !AllEnded(end))
  {
    var end := After(Pair(n, g), Start(Pair(n, g)), run);
    PairReaches(n, g, run);
    if !PairCompletes(n, g) {
      PairNever(n, g, end);
    } else if Stuck(Pair(n, g), end) {
      PairEnds(n, g, end);
    }
  }

  /** A consumer that also waits for its producer's state: the number of workers does not matter. */
  lemma GatedPair(n: nat, g: Setting, run: seq<Step>)
    requires g.gated && g.workers >= 1 && IsRun(Pair(n, g), Start(Pair(n, g)), run)
    ensures var end := After(Pair(n, g), Start(Pair(n, g)), run);
      Stuck(Pair(n, g), end) ==> (AllEnded(end) <==> if P in g.skipped then C in g.skipped else n <= g.capacity)
  {
    PairCompletesIff(n, g, run);
  }

  // ---- All runs of the pair end ----

  ghost predicate PairOk(s: Sys) {
    && s.mode.Keys == {P, C} && s.left.Keys == {P, C} && s.buffered.Keys == {LINK}
    && (s.mode[P].Writing? ==> s.mode[P].rest == [LINK] || s.mode[P].rest == [])
    && (s.mode[C].Writing? ==> s.mode[C].rest == [])
  }

  function Weight(m: Mode): nat {
    match m
    case Pending => 3
    case Queued => 2
    case Reading => 1
    case Writing(rest) => if rest == [] then 2 else 5
    case Ended => 0
  }

  function Work(s: Sys): nat
    requires P in s.mode && C in s.mode && P in s.left && LINK in s.buffered
  {
    5 * s.left[P] + 2 * s.buffered[LINK] + Weight(s.mode[P]) + Weight(s.mode[C])
  }

  ghost predicate PairWrites(f: Flow) {
    f.late == {} && (forall t, e, w :: f.MayWrite(t, e, w) ==> w == f.outs[t]) && P in f.outs && f.outs[P] == [LINK]
    && (forall t, e :: f.IsInput(t, e) ==> t == C && e == LINK && f.IsInput(C, LINK)) && C in f.outs && f.outs[C] == []
  }

  lemma WorkRead(f: Flow, s: Sys, step: Step)
    requires PairOk(s) && PairWrites(f) && Enabled(f, s, step) && (step.Receive? || step.HandOver? || step.Put?)
    ensures var s' := Apply(f, s, step); PairOk(s') && Work(s') < Work(s)
  {
    if step.HandOver? { assert f.IsInput(s.mode[step.t].rest[0].consumer, s.mode[step.t].rest[0]); }
  }

  lemma WorkMove(f: Flow, s: Sys, step: Step)
    requires PairOk(s) && PairWrites(f) && Enabled(f, s, step) && !step.Receive? && !step.HandOver? && !step.Put?
    requires step.Take? ==> s.queue[0] in s.mode && s.mode[s.queue[0]].Queued?
    requires f.IsInput(C, LINK)
    ensures var s' := Apply(f, s, step); PairOk(s') && Work(s') < Work(s)
  {
  }

  lemma WorkStep(n: nat, g: Setting, s: Sys, step: Step)
    requires PairOk(s) && QueueOk(s) && Enabled(Pair(n, g), s, step)
    ensures var s' := Apply(Pair(n, g), s, step); PairOk(s') && Work(s') < Work(s)
  {
    var f := Pair(n, g);
    if step.Take? { QueueHead(s); }
    assert PairWrites(f);
    if step.Receive? || step.HandOver? || step.Put? { WorkRead(f, s, step); } else { WorkMove(f, s, step); }
  }

  lemma {:induction false} PairRunsWork(n: nat, g: Setting, s: Sys, run: seq<Step>)
    requires QueueOk(s) && PairOk(s) && IsRun(Pair(n, g), s, run)
    ensures |run| <= Work(s)
    decreases |run|
  {
    if run != [] {
      StepQueue(Pair(n, g), s, run[0]);
      WorkStep(n, g, s, run[0]);
      PairRunsWork(n, g, Apply(Pair(n, g), s, run[0]), run[1..]);
    }
  }

  /** No run takes more than 5n + 6 steps. */
  lemma PairRunsAreBounded(n: nat, g: Setting, run: seq<Step>)
    requires IsRun(Pair(n, g), Start(Pair(n, g)), run)
    ensures |run| <= 5 * n + 6
  {
    PairRunsWork(n, g, Start(Pair(n, g)), run);
  }

  // ---- A producer that feeds both sides of a join ----

  const V: TaskId := "v"
  const J: TaskId := "j"
  const PROBE := Edge(J, 0)
  const BUILD := Edge(J, 1)
  const VIA := Edge(V, 0)

  /** p streams n records to the join j, and to v, which passes them on to a build stream of j. */
  function Diamond(n: nat, capacity: nat, workers: nat): Flow {
    Flow([P, V, J], map[PROBE := P, VIA := P, BUILD := V], map[P := [PROBE, VIA], V := [BUILD], J := []],
         map[P := {}, V := {}, J := {}], {PROBE}, map[P := n, V := 0, J := 0], {}, capacity, workers)
  }

  lemma ThreePositions(a: TaskId, b: TaskId, c: TaskId)
    requires a != b && b != c && a != c
    ensures Position([a, b, c], a) == 0 && Position([a, b, c], b) == 1 && Position([a, b, c], c) == 2
  {
    assert [a, b, c][1..] == [b, c] && [b, c][1..] == [c];
    assert Position([c], c) == 0 && Position([b, c], c) == 1;
  }

  lemma DiamondOuts(n: nat, capacity: nat, workers: nat)
    ensures var f := Diamond(n, capacity, workers);
      forall t :: t in f.outs ==> NoDup(f.outs[t]) && forall e :: e in f.outs[t] <==> e in f.edges && f.edges[e] == t
  {
  }

  lemma DiamondIsValid(n: nat, capacity: nat, workers: nat)
    ensures Diamond(n, capacity, workers).Valid()
  {
    var f := Diamond(n, capacity, workers);
    ThreePositions(P, V, J);
    assert f.outs.Keys == Elements(f.tasks) && f.supply.Keys == Elements(f.tasks);
    DiamondOuts(n, capacity, workers);
  }

  lemma DiamondIsSource(n: nat, capacity: nat, workers: nat)
    ensures Diamond(n, capacity, workers).IsSource(P)
  {
  }

  lemma DiamondOrder(n: nat, capacity: nat, workers: nat)
    ensures Diamond(n, capacity, workers).Before(P, V) && Diamond(n, capacity, workers).Before(V, J)
  {
    ThreePositions(P, V, J);
  }

  /** j reads p's records only after v has ended, and so after p has. */
  lemma ProbeIsShut(n: nat, capacity: nat, workers: nat)
    ensures Shut(Diamond(n, capacity, workers), PROBE)
  {
    var f := Diamond(n, capacity, workers);
    DiamondOrder(n, capacity, workers);
    assert f.IsInput(V, VIA) && Outlasts(f, P, P);
    assert f.IsEarly(J, BUILD) && Outlasts(f, P, V);
  }

  lemma DiamondStaged(n: nat, capacity: nat, workers: nat)
    requires n <= capacity
    ensures HasStages(Diamond(n, capacity, workers))
  {
    var f := Diamond(n, capacity, workers);
    DiamondIsSource(n, capacity, workers);
    assert HoldsAll(f, PROBE);
    assert Staged(f, _ => 0);
  }

  lemma DiamondNever(n: nat, capacity: nat, workers: nat, end: Sys)
    requires Reachable(Diamond(n, capacity, workers), end) && n > capacity
    ensures !AllEnded(end)
  {
    DiamondIsSource(n, capacity, workers);
    ProbeIsShut(n, capacity, workers);
    ShutNeverCompletes(Diamond(n, capacity, workers), end, PROBE);
  }

  lemma DiamondEnds(n: nat, capacity: nat, workers: nat, end: Sys)
    requires workers >= 3 && Reachable(Diamond(n, capacity, workers), end) && Stuck(Diamond(n, capacity, workers), end)
    requires n <= capacity
    ensures AllEnded(end)
  {
    DiamondStaged(n, capacity, workers);
    StagesComplete(Diamond(n, capacity, workers), end);
  }

  /** It completes if and only if the probe channel holds all of p's records. */
  lemma DiamondCompletesIff(n: nat, capacity: nat, workers: nat, run: seq<Step>)
    requires workers >= 3 && IsRun(Diamond(n, capacity, workers), Start(Diamond(n, capacity, workers)), run)
    ensures var f := Diamond(n, capacity, workers); var end := After(f, Start(f), run);
      Stuck(f, end) ==> (AllEnded(end) <==> n <= capacity)
  {
    var end := After(Diamond(n, capacity, workers), Start(Diamond(n, capacity, workers)), run);
    DiamondReaches(n, capacity, workers, run);
    if n > capacity {
      DiamondNever(n, capacity, workers, end);
    } else if Stuck(Diamond(n, capacity, workers), end) {
      DiamondEnds(n, capacity, workers, end);
    }
  }

  lemma DiamondReaches(n: nat, capacity: nat, workers: nat, run: seq<Step>)
    requires IsRun(Diamond(n, capacity, workers), Start(Diamond(n, capacity, workers)), run)
    ensures var f := Diamond(n, capacity, workers); Reachable(f, After(f, Start(f), run))
  {
    DiamondIsValid(n, capacity, workers);
  }
}
