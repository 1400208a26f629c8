/** No record is lost on the way: what a task receives it passes on to each of its outputs. */
module StreamTotals {
  import opened Prelude
  import opened Graphs
  import opened ChannelTopology
  import opened StreamFlow
  import opened StreamBlocks

  /** The records taken from a channel so far. */
  function Received(s: Sys, e: Edge): nat {
    if e in s.sent && e in s.buffered && s.buffered[e] <= s.sent[e] then s.sent[e] - s.buffered[e] else 0
  }

  function AllReceived(s: Sys, ins: seq<Edge>): seq<nat> {
    seq(|ins|, i requires 0 <= i < |ins| => Received(s, ins[i]))
  }

  /** t passes records on: it has inputs, reads them all alike, and ins lists them. */
  ghost predicate IsPasser(f: Flow, t: TaskId, ins: seq<Edge>) {
    && t in f.outs && !f.IsSource(t) && !f.IsJoin(t)
    && NoDup(ins) && forall e :: e in ins <==> f.IsInput(t, e)
  }

  /** What t has received it has written to e, or is about to. */
  ghost predicate PassedOn(f: Flow, s: Sys, t: TaskId, ins: seq<Edge>, e: Edge) {
    t in s.mode && e in s.sent && s.sent[e] + ToWrite(s.mode[t], e) == Sum(AllReceived(s, ins))
  }

  lemma SameReceived(s: Sys, s': Sys, ins: seq<Edge>)
    requires forall e :: e in ins ==> Received(s', e) == Received(s, e)
    ensures AllReceived(s', ins) == AllReceived(s, ins)
  {
    forall i | 0 <= i < |ins| ensures AllReceived(s', ins)[i] == AllReceived(s, ins)[i] { assert ins[i] in ins; }
  }

  lemma OneMoreReceived(s: Sys, s': Sys, ins: seq<Edge>, d: Edge)
    requires NoDup(ins) && d in ins && Received(s', d) == Received(s, d) + 1
    requires forall e :: e in ins && e != d ==> Received(s', e) == Received(s, e)
    ensures Sum(AllReceived(s', ins)) == Sum(AllReceived(s, ins)) + 1
  {
    var i :| 0 <= i < |ins| && ins[i] == d;
    var before, after := AllReceived(s, ins), AllReceived(s', ins);
    assert after == before[i := before[i] + 1] by {
      forall j | 0 <= j < |ins| && j != i ensures after[j] == before[j] { assert ins[j] in ins && ins[j] != d; }
    }
    SumUpdate(before, i, before[i] + 1);
  }

  // ---- Every step ----

  /** A step in which t receives. */
  lemma ReceiveTotals(f: Flow, s: Sys, t: TaskId, d: Edge, w: seq<Edge>, ins: seq<Edge>, e: Edge)
    requires IsPasser(f, t, ins) && PassedOn(f, s, t, ins, e) && multiset(f.outs[t])[e] == 1
    requires Enabled(f, s, Receive(t, d, w)) && CountOk(f, s, d)
    ensures PassedOn(f, Apply(f, s, Receive(t, d, w)), t, ins, e)
  {
    var s' := Apply(f, s, Receive(t, d, w));
    assert d !in f.late;
    OneMoreReceived(s, s', ins, d);
  }

  /** A step in which a record is handed over to t. */
  lemma HandedTotals(f: Flow, s: Sys, u: TaskId, w: seq<Edge>, t: TaskId, ins: seq<Edge>, e: Edge)
    requires IsPasser(f, t, ins) && PassedOn(f, s, t, ins, e) && multiset(f.outs[t])[e] == 1
    requires Enabled(f, s, HandOver(u, w)) && s.mode[u].rest[0].consumer == t && s.mode[u].rest[0] != e
    requires CountOk(f, s, s.mode[u].rest[0])
    ensures PassedOn(f, Apply(f, s, HandOver(u, w)), t, ins, e)
  {
    var s', d := Apply(f, s, HandOver(u, w)), s.mode[u].rest[0];
    assert f.IsInput(t, d) && d !in f.late;
    OneMoreReceived(s, s', ins, d);
  }

  /** A step in which t writes: what it was about to write it has written. */
  lemma WriteTotals(f: Flow, s: Sys, step: Step, t: TaskId, ins: seq<Edge>, e: Edge)
    requires IsPasser(f, t, ins) && PassedOn(f, s, t, ins, e) && Enabled(f, s, step) && (step.Put? || step.HandOver?)
    requires step.t == t && s.mode[t].rest[0].consumer != t
    ensures PassedOn(f, Apply(f, s, step), t, ins, e)
  {
    FirstToWrite(s.mode[t].rest, e);
    SameReceived(s, Apply(f, s, step), ins);
  }

  /** Any other step. */
  lemma OtherTotals(f: Flow, s: Sys, step: Step, t: TaskId, ins: seq<Edge>, e: Edge)
    requires IsPasser(f, t, ins) && PassedOn(f, s, t, ins, e) && Enabled(f, s, step)
    requires !(step.Receive? && step.t == t)
    requires step.Put? || step.HandOver? ==>
      step.t != t && s.mode[step.t].rest[0] != e && (step.HandOver? ==> s.mode[step.t].rest[0].consumer != t)
    requires step.Take? ==> s.queue[0] in s.mode && s.mode[s.queue[0]].Queued?
    ensures PassedOn(f, Apply(f, s, step), t, ins, e)
  {
    SameReceived(s, Apply(f, s, step), ins);
  }

  /** A step that writes, or hands over. */
  lemma SendTotals(f: Flow, s: Sys, step: Step, t: TaskId, ins: seq<Edge>, e: Edge)
    requires IsPasser(f, t, ins) && PassedOn(f, s, t, ins, e) && multiset(f.outs[t])[e] == 1
    requires e in f.edges && f.edges[e] == t
    requires Enabled(f, s, step) && (step.Put? || step.HandOver?)
    requires var d := s.mode[step.t].rest[0];
      d in f.edges && f.edges[d] == step.t && d.consumer != step.t && CountOk(f, s, d)
    ensures PassedOn(f, Apply(f, s, step), t, ins, e)
  {
    if step.t == t {
      WriteTotals(f, s, step, t, ins, e);
    } else if step.HandOver? && s.mode[step.t].rest[0].consumer == t {
      HandedTotals(f, s, step.t, step.w, t, ins, e);
    } else {
      OtherTotals(f, s, step, t, ins, e);
    }
  }

  lemma StepTotals(f: Flow, s: Sys, step: Step, t: TaskId, ins: seq<Edge>, e: Edge)
    requires f.Valid() && ModesOk(f, s) && QueueOk(s) && Counted(f, s) && Enabled(f, s, step)
    requires IsPasser(f, t, ins) && e in f.outs[t] && PassedOn(f, s, t, ins, e)
    ensures PassedOn(f, Apply(f, s, step), t, ins, e)
  {
    OutEdge(f, t, e);
    if step.Put? || step.HandOver? {
      RestIsOwn(f, s, step.t);
      NotToItself(f, s.mode[step.t].rest[0]);
      SendTotals(f, s, step, t, ins, e);
    } else if step.Receive? && step.t == t {
      ReceiveTotals(f, s, t, step.e, step.w, ins, e);
    } else {
      if step.Take? { QueueHead(s); }
      OtherTotals(f, s, step, t, ins, e);
    }
  }

  lemma NotToItself(f: Flow, e: Edge)
    requires f.Valid() && e in f.edges
    ensures e.consumer != f.edges[e]
  {
    assert f.Before(f.edges[e], e.consumer);
  }

  lemma OutEdge(f: Flow, t: TaskId, e: Edge)
    requires f.Valid() && t in f.outs && e in f.outs[t]
    ensures e in f.edges && f.edges[e] == t && multiset(f.outs[t])[e] == 1
  {
    AllToWrite(f, e);
  }

  lemma {:induction false} RunTotals(f: Flow, s: Sys, run: seq<Step>, t: TaskId, ins: seq<Edge>, e: Edge)
    requires Inv(f, s) && Counted(f, s) && IsRun(f, s, run) && IsPasser(f, t, ins) && e in f.outs[t]
    requires PassedOn(f, s, t, ins, e)
    ensures PassedOn(f, After(f, s, run), t, ins, e)
    decreases |run|
  {
    if run != [] {
      StepTotals(f, s, run[0], t, ins, e);
      StepInv(f, s, run[0]);
      forall d | d in f.edges ensures CountOk(f, Apply(f, s, run[0]), d) { StepCount(f, s, run[0], d); }
      RunTotals(f, Apply(f, s, run[0]), run[1..], t, ins, e);
    }
  }

  lemma StartTotals(f: Flow, t: TaskId, ins: seq<Edge>, e: Edge)
    requires f.Valid() && IsPasser(f, t, ins) && e in f.outs[t]
    ensures PassedOn(f, Start(f), t, ins, e)
  {
    var s := Start(f);
    OutEdge(f, t, e);
    assert AllReceived(s, ins) == seq(|ins|, _ => 0);
    SumZeros(|ins|);
  }

  // ---- What every channel carries ----

  /** How many records the inputs carried, each in all. */
  function Carried(s: Sys, ins: seq<Edge>): seq<nat>
    requires forall e :: e in ins ==> e in s.sent
  {
    seq(|ins|, i requires 0 <= i < |ins| => s.sent[ins[i]])
  }

  lemma ReachableTotals(f: Flow, s: Sys, t: TaskId, ins: seq<Edge>, e: Edge)
    requires Reachable(f, s) && IsPasser(f, t, ins) && e in f.outs[t]
    ensures PassedOn(f, s, t, ins, e)
  {
    var run :| f.Valid() && IsRun(f, Start(f), run) && s == After(f, Start(f), run);
    StartInv(f);
    StartCounted(f);
    StartTotals(f, t, ins, e);
    RunTotals(f, Start(f), run, t, ins, e);
  }

  lemma Drained(f: Flow, s: Sys, t: TaskId, d: Edge)
    requires Reachable(f, s) && HasEnded(s, t) && t !in f.skipped && f.IsInput(t, d)
    ensures d in s.sent && d in s.buffered && s.buffered[d] == 0
  {
    ReachableFacts(f, s);
    EdgeEnds(f, s, d);
    assert IsOver(s, d);
  }

  lemma AllDrained(s: Sys, ins: seq<Edge>)
    requires forall d :: d in ins ==> d in s.sent && d in s.buffered && s.buffered[d] == 0
    ensures AllReceived(s, ins) == Carried(s, ins)
  {
    forall i | 0 <= i < |ins| ensures AllReceived(s, ins)[i] == Carried(s, ins)[i] { assert ins[i] in ins; }
  }

  /**
   In every run, a task that passes records on and has ended has written to each of its outputs as many
   records as were ever written to all its inputs together.
   */
  lemma NothingIsLost(f: Flow, s: Sys, t: TaskId, ins: seq<Edge>, e: Edge)
    requires Reachable(f, s) && IsPasser(f, t, ins) && e in f.outs[t] && HasEnded(s, t) && t !in f.skipped
    ensures e in s.sent && (forall d :: d in ins ==> d in s.sent) && s.sent[e] == Sum(Carried(s, ins))
  {
    ReachableTotals(f, s, t, ins, e);
    forall d | d in ins ensures d in s.sent && d in s.buffered && s.buffered[d] == 0 { Drained(f, s, t, d); }
    AllDrained(s, ins);
  }

  /** And a source has written all that it had to produce to each of its outputs. */
  lemma SourcesSendAll(f: Flow, s: Sys, t: TaskId, e: Edge)
    requires Reachable(f, s) && t in f.outs && f.IsSource(t) && e in f.outs[t] && HasEnded(s, t) && t !in f.skipped
    ensures e in s.sent && t in f.supply && s.sent[e] == f.supply[t]
  {
    ReachableFacts(f, s);
    OutEdge(f, t, e);
    EdgeEnds(f, s, e);
    assert CountOk(f, s, e);
  }
}
