/** Channels that nobody reads before their producer has ended, and how many records they can carry. */
module StreamGates {
  import opened Prelude
  import opened Graphs
  import opened ChannelTopology
  import opened StreamFlow
  import opened StreamBlocks

  /**
   t is dispatched only after p has ended: it waits for a state that comes after p's end, or streams
   from such a task.
   */
  ghost predicate Behind(f: Flow, p: TaskId, t: TaskId)
    decreases Position(f.tasks, t), 0
  {
    || (exists x :: f.Waits(t, x) && f.Before(x, t) && Outlasts(f, p, x))
    || exists e :: f.IsInput(t, e) && f.Before(f.edges[e], t) && Behind(f, p, f.edges[e])
  }

  /**
   t ends only after p has ended: it is p, or is dispatched after that, or reads a stream to its end
   from such a task.
   */
  ghost predicate Outlasts(f: Flow, p: TaskId, t: TaskId)
    decreases Position(f.tasks, t), 1
  {
    || t == p || Behind(f, p, t)
    || (t !in f.skipped && exists e :: f.IsInput(t, e) && f.Before(f.edges[e], t) && Outlasts(f, p, f.edges[e]))
  }

  /**
   Nobody reads the channel while its producer executes: the consumer is skipped, or dispatched later,
   or first reads another input to its end that does not end before; or there is no second worker.
   */
  ghost predicate Shut(f: Flow, e: Edge)
    requires e in f.edges
  {
    var p, c := f.edges[e], e.consumer;
    || f.workers == 1 || c in f.skipped || Behind(f, p, c)
    || (e in f.late && exists d :: f.IsEarly(c, d) && Outlasts(f, p, f.edges[d]))
  }

  lemma {:induction false} BehindMeans(f: Flow, s: Sys, p: TaskId, t: TaskId)
    requires Inv(f, s) && Behind(f, p, t) && Started(s, t)
    ensures HasEnded(s, p)
    decreases Position(f.tasks, t), 0
  {
    assert CanStart(f, s, t);
    if x :| f.Waits(t, x) && f.Before(x, t) && Outlasts(f, p, x) {
      OutlastsMeans(f, s, p, x);
    } else {
      var e :| f.IsInput(t, e) && f.Before(f.edges[e], t) && Behind(f, p, f.edges[e]);
      BehindMeans(f, s, p, f.edges[e]);
    }
  }

  lemma {:induction false} OutlastsMeans(f: Flow, s: Sys, p: TaskId, t: TaskId)
    requires Inv(f, s) && Outlasts(f, p, t) && HasEnded(s, t)
    ensures HasEnded(s, p)
    decreases Position(f.tasks, t), 1
  {
    if Behind(f, p, t) {
      BehindMeans(f, s, p, t);
    } else if t != p {
      var e :| f.IsInput(t, e) && f.Before(f.edges[e], t) && Outlasts(f, p, f.edges[e]);
      assert IsOver(s, e);
      OutlastsMeans(f, s, p, f.edges[e]);
    }
  }

  lemma OneWorker(f: Flow, s: Sys, a: TaskId, b: TaskId)
    requires |Busy(s)| <= 1 && Executes(s, a) && Executes(s, b)
    ensures a == b
  {
    SubsetCard({a, b}, Busy(s));
  }

  lemma NobodyReads(f: Flow, s: Sys, e: Edge)
    requires Inv(f, s) && e in f.edges && Shut(f, e) && Reads(s, e.consumer) && IsOpen(f, s, e)
    ensures HasEnded(s, f.edges[e])
  {
    var p, c := f.edges[e], e.consumer;
    EdgeEnds(f, s, e);
    if Behind(f, p, c) {
      BehindMeans(f, s, p, c);
    } else if e in f.late && exists d :: f.IsEarly(c, d) && Outlasts(f, p, f.edges[d]) {
      var d :| f.IsEarly(c, d) && Outlasts(f, p, f.edges[d]);
      assert IsOver(s, d);
      OutlastsMeans(f, s, p, f.edges[d]);
    } else {
      ProducerWasTaken(f, s, e);
      if Executes(s, p) { OneWorker(f, s, p, c); }
    }
  }

  /** As long as its producer has not ended, all that it wrote to the channel is still there. */
  ghost predicate Dammed(f: Flow, s: Sys, e: Edge) {
    && e in f.edges && e in s.sent && e in s.buffered && s.sent[e] <= f.capacity
    && (!HasEnded(s, f.edges[e]) ==> s.buffered[e] == s.sent[e])
  }

  lemma StepDammed(f: Flow, s: Sys, step: Step, e: Edge)
    requires Inv(f, s) && Enabled(f, s, step) && Dammed(f, s, e) && Shut(f, e)
    ensures Dammed(f, Apply(f, s, step), e)
  {
    if step.Put? || step.HandOver? { RestIsOwn(f, s, step.t); }
    if Reads(s, e.consumer) && IsOpen(f, s, e) { NobodyReads(f, s, e); }
    DamHolds(f, s, step, e);
  }

  lemma DamHolds(f: Flow, s: Sys, step: Step, e: Edge)
    requires Enabled(f, s, step) && Dammed(f, s, e) && QueueOk(s)
    requires Reads(s, e.consumer) && IsOpen(f, s, e) ==> HasEnded(s, f.edges[e])
    requires step.Put? || step.HandOver? ==> var d := s.mode[step.t].rest[0]; d in f.edges && f.edges[d] == step.t
    ensures Dammed(f, Apply(f, s, step), e)
  {
    StepEnded(f, s, step, f.edges[e]);
  }

  lemma {:induction false} RunDammed(f: Flow, s: Sys, run: seq<Step>, e: Edge)
    requires Inv(f, s) && Dammed(f, s, e) && Shut(f, e) && IsRun(f, s, run)
    ensures Dammed(f, After(f, s, run), e)
    decreases |run|
  {
    if run != [] {
      StepInv(f, s, run[0]);
      StepDammed(f, s, run[0], e);
      RunDammed(f, Apply(f, s, run[0]), run[1..], e);
    }
  }

  /** A source that has ended without being skipped has sent all its records over each of its channels. */
  lemma EndedSource(f: Flow, s: Sys, e: Edge)
    requires EndsOk(f, s) && CountOk(f, s, e) && f.IsSource(f.edges[e]) && HasEnded(s, f.edges[e])
    requires f.edges[e] !in f.skipped
    ensures s.sent[e] == f.supply[f.edges[e]]
  {
  }

  /** Over a shut channel no more records are ever written than it holds. */
  lemma ShutChannel(f: Flow, s: Sys, e: Edge)
    requires Reachable(f, s) && e in f.edges && Shut(f, e)
    ensures Dammed(f, s, e)
  {
    var run :| f.Valid() && IsRun(f, Start(f), run) && s == After(f, Start(f), run);
    StartInv(f);
    RunDammed(f, Start(f), run, e);
  }

  /** A source that would write more than that never ends, however many workers there are. */
  lemma ShutNeverCompletes(f: Flow, s: Sys, e: Edge)
    requires Reachable(f, s) && e in f.edges && Shut(f, e)
    requires f.IsSource(f.edges[e]) && f.edges[e] !in f.skipped && !HoldsAll(f, e)
    ensures !HasEnded(s, f.edges[e]) && !AllEnded(s)
  {
    ReachableFacts(f, s);
    ShutChannel(f, s, e);
    EdgeEnds(f, s, e);
    if HasEnded(s, f.edges[e]) { EndedSource(f, s, e); }
  }
}
