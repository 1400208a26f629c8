/**
 The build phase of the join as a state machine: one reader per build stream, all sending to one
 bounded channel, and a collector. Receiving a record, checking for an error, counting, judging the
 count and the key, and sending are separate steps, so every interleaving of the readers is a run.
 */
module JoinBuild {
  import opened Prelude
  import opened JoinRows

  /** A record on the merged channel, from the build stream with the given index. */
  datatype BuildRecord = BuildRecord(stream: nat, rec: Rec, key: Key)

  datatype Reader =
    | Top                          // about to receive
    | Received(rec: Rec)           // about to check for an error
    | Admitted(rec: Rec)           // about to count the record
    | Counted(rec: Rec, n: nat)    // about to compare with the limit and extract the key
    | Cancelling(rec: Rec)         // has found the limit exceeded, about to cancel the phase
    | Skipping(rec: Rec)           // about to report a key error
    | Sending(rec: Rec, key: Key)
    | Done
  {
    /** A record received and not yet counted. */
    predicate Uncounted() { Received? || Admitted? }

    /** A record received whose key was not yet looked at. */
    predicate Unjudged() { Uncounted() || Counted? }

    /** A record received and not yet on the channel. */
    predicate Unsent() { Unjudged() || Sending? }
  }

  /**
   What the phase works on: the streams in the order of the configuration, the limit (none if zero), and
   the room on the channel for key errors, which nobody reads before the module has returned.
   */
  datatype Build = Build(cfg: Config, streams: seq<seq<Rec>>, limit: nat, errorRoom: nat) {
    predicate Valid() { |streams| == |cfg.buildNames| > 0 }
    function KeyOf(i: nat, r: Rec): Option<Key> requires i < |cfg.buildNames| { cfg.key(cfg.buildNames[i], r) }
    function Capacity(): nat { 100 * |streams| }
  }

  /**
   counted and skippedBy split the two statistics by reader; sent is everything ever put on the channel.
   The error is set before the context is cancelled.
   */
  datatype Sys = Sys(readers: seq<Reader>, pos: seq<nat>, counted: seq<nat>, skippedBy: seq<nat>,
                     total: nat, skipped: nat, reported: nat,
                     channel: seq<BuildRecord>, taken: seq<BuildRecord>, sent: seq<BuildRecord>,
                     err: bool, cancelled: bool)

  datatype Step =
    | Receive(i: nat)
    | Check(i: nat)
    | Count(i: nat)
    | Judge(i: nat)
    | Cancel(i: nat)
    | ReportSkip(i: nat)
    | Send(i: nat)
    | GiveUp(i: nat)   // the phase was cancelled while the reader waited in a select
    | Close(i: nat)
    | Collect

  function Start(b: Build): Sys {
    var n := |b.streams|;
    Sys(seq(n, _ => Top), seq(n, _ => 0), seq(n, _ => 0), seq(n, _ => 0), 0, 0, 0, [], [], [], false, false)
  }

  predicate Shape(b: Build, s: Sys) {
    b.Valid() && |s.readers| == |s.pos| == |s.counted| == |s.skippedBy| == |b.streams|
  }

  predicate Enabled(b: Build, s: Sys, step: Step) {
    && Shape(b, s)
    && match step
       case Receive(i) => i < |s.readers| && s.readers[i].Top? && s.pos[i] < |b.streams[i]|
       case Check(i) => i < |s.readers| && s.readers[i].Received?
       case Count(i) => i < |s.readers| && s.readers[i].Admitted?
       case Judge(i) => i < |s.readers| && s.readers[i].Counted?
       case Cancel(i) => i < |s.readers| && s.readers[i].Cancelling?
       case ReportSkip(i) => i < |s.readers| && s.readers[i].Skipping? && s.reported < b.errorRoom
       case Send(i) => i < |s.readers| && s.readers[i].Sending? && |s.channel| < b.Capacity()
       case GiveUp(i) => i < |s.readers| && (s.readers[i].Sending? || s.readers[i].Skipping?) && s.cancelled
       case Close(i) => i < |s.readers| && s.readers[i].Top? && s.pos[i] == |b.streams[i]|
       case Collect => s.channel != []
  }

  function ToPhase(s: Sys, i: nat, r: Reader): Sys
    requires i < |s.readers|
  {
    s.(readers := s.readers[i := r])
  }

  function ApplyJudge(b: Build, s: Sys, i: nat): Sys
    requires Shape(b, s) && i < |s.readers| && s.readers[i].Counted?
  {
    var Counted(rec, n) := s.readers[i];
    if b.limit > 0 && n > b.limit then ToPhase(s, i, Cancelling(rec)).(err := true)
    else
      match b.KeyOf(i, rec)
      case None =>
        ToPhase(s, i, Skipping(rec)).(skipped := s.skipped + 1, skippedBy := s.skippedBy[i := s.skippedBy[i] + 1])
      case Some(k) => ToPhase(s, i, Sending(rec, k))
  }

  function Apply(b: Build, s: Sys, step: Step): Sys
    requires Enabled(b, s, step)
  {
    match step
    case Receive(i) => ToPhase(s, i, Received(b.streams[i][s.pos[i]])).(pos := s.pos[i := s.pos[i] + 1])
    case Check(i) => ToPhase(s, i, if s.err then Top else Admitted(s.readers[i].rec))
    case Count(i) =>
      var counted := s.counted[i := s.counted[i] + 1];
      ToPhase(s, i, Counted(s.readers[i].rec, s.total + 1)).(total := s.total + 1, counted := counted)
    case Judge(i) => ApplyJudge(b, s, i)
    case Cancel(i) => ToPhase(s, i, Top).(cancelled := true)
    case ReportSkip(i) => ToPhase(s, i, Top).(reported := s.reported + 1)
    case Send(i) =>
      var m := BuildRecord(i, s.readers[i].rec, s.readers[i].key);
      ToPhase(s, i, Top).(channel := s.channel + [m], sent := s.sent + [m])
    case GiveUp(i) => ToPhase(s, i, Done)
    case Close(i) => ToPhase(s, i, Done)
    case Collect => s.(channel := s.channel[1..], taken := if s.err then s.taken else s.taken + [s.channel[0]])
  }

  ghost predicate IsRun(b: Build, s: Sys, run: seq<Step>)
    decreases |run|
  {
    run == [] || (Enabled(b, s, run[0]) && IsRun(b, Apply(b, s, run[0]), run[1..]))
  }

  ghost function After(b: Build, s: Sys, run: seq<Step>): Sys
    requires IsRun(b, s, run)
    decreases |run|
  {
    if run == [] then s else After(b, Apply(b, s, run[0]), run[1..])
  }

  /** All readers have returned, so the channel is closed, and it has been drained. */
  predicate Finished(s: Sys) {
    (forall i :: 0 <= i < |s.readers| ==> s.readers[i].Done?) && s.channel == []
  }

  // ---- What belongs to one stream ----

  /** The messages that the first records of a stream give: those with a key, in order. */
  function Keyed(b: Build, i: nat, rs: seq<Rec>): seq<BuildRecord>
    requires i < |b.cfg.buildNames|
  {
    if rs == [] then []
    else
      var init, last := rs[..|rs| - 1], rs[|rs| - 1];
      match b.KeyOf(i, last)
      case None => Keyed(b, i, init)
      case Some(k) => Keyed(b, i, init) + [BuildRecord(i, last, k)]
  }

  function Keyless(b: Build, i: nat, rs: seq<Rec>): nat
    requires i < |b.cfg.buildNames|
  {
    if rs == [] then 0
    else Keyless(b, i, rs[..|rs| - 1]) + if b.KeyOf(i, rs[|rs| - 1]).None? then 1 else 0
  }

  function OfStream(ms: seq<BuildRecord>, i: nat): seq<BuildRecord> {
    if ms == [] then []
    else OfStream(ms[..|ms| - 1], i) + if ms[|ms| - 1].stream == i then [ms[|ms| - 1]] else []
  }

  lemma OneMore<T>(s: seq<T>, n: nat)
    requires n < |s|
    ensures s[..n + 1][..n] == s[..n] && s[..n + 1][n] == s[n]
  {
  }

  lemma OfStreamSnoc(ms: seq<BuildRecord>, m: BuildRecord, i: nat)
    ensures OfStream(ms + [m], i) == OfStream(ms, i) + if m.stream == i then [m] else []
  {
  }

  // ---- The invariant ----

  function Back(p: nat, held: bool): nat {
    if held && p > 0 then p - 1 else p
  }

  /** The reader of stream i: the record it holds, its statistics and what it has sent. */
  ghost predicate ReaderOk(b: Build, i: nat, r: Reader, pos: nat, counted: nat, skipped: nat, sent: seq<BuildRecord>,
                           total: nat, err: bool)
    requires b.Valid() && i < |b.streams|
  {
    var rs := b.streams[i];
    && pos <= |rs|
    && (!r.Top? && !r.Done? ==> pos > 0 && r.rec == rs[pos - 1])
    && (r.Sending? ==> b.KeyOf(i, r.rec) == Some(r.key))
    && (r.Skipping? ==> b.KeyOf(i, r.rec) == None)
    && (r.Counted? ==> r.n <= total) && (r.Cancelling? ==> err)
    && counted <= Back(pos, r.Uncounted())
    && (!err ==>
      && (r.Done? ==> pos == |rs|)
      && counted == Back(pos, r.Uncounted())
      && skipped == Keyless(b, i, rs[..Back(pos, r.Unjudged())])
      && sent == Keyed(b, i, rs[..Back(pos, r.Unsent())]))
  }

  ghost predicate ReaderOkIn(b: Build, s: Sys, i: nat)
    requires Shape(b, s) && i < |b.streams|
  {
    ReaderOk(b, i, s.readers[i], s.pos[i], s.counted[i], s.skippedBy[i], OfStream(s.sent, i), s.total, s.err)
  }

  predicate OverLimit(b: Build, r: Reader) {
    r.Counted? && r.n > b.limit
  }

  /** For every reader, whether it holds a key error that is not reported yet. */
  function Unreported(s: Sys): seq<nat> {
    seq(|s.readers|, i requires 0 <= i < |s.readers| => if s.readers[i].Skipping? then 1 else 0)
  }

  /** Every skipped record is reported or being reported, unless the error made its reader give up. */
  ghost predicate ErrorsOk(b: Build, s: Sys) {
    && s.reported <= b.errorRoom
    && (!s.err ==> s.skipped == s.reported + Sum(Unreported(s)))
  }

  ghost predicate GlobalOk(b: Build, s: Sys)
    requires Shape(b, s)
  {
    && s.total == Sum(s.counted) && s.skipped == Sum(s.skippedBy)
    && (!s.err ==> s.taken + s.channel == s.sent)
    && (forall m :: m in s.sent ==> m.stream < |b.streams|)
    && (s.err ==> b.limit > 0 && s.total > b.limit)
    && (b.limit > 0 && s.total > b.limit && !s.err ==> exists i :: 0 <= i < |s.readers| && OverLimit(b, s.readers[i]))
  }

  /** The error is followed by the cancellation. */
  ghost predicate CancelOk(s: Sys) {
    && (s.cancelled ==> s.err)
    && (s.err && !s.cancelled ==> exists i :: 0 <= i < |s.readers| && s.readers[i].Cancelling?)
  }

  ghost predicate Inv(b: Build, s: Sys) {
    && Shape(b, s) && GlobalOk(b, s) && CancelOk(s) && ErrorsOk(b, s)
    && forall i :: 0 <= i < |b.streams| ==> ReaderOkIn(b, s, i)
  }

  lemma StartInv(b: Build)
    requires b.Valid()
    ensures Inv(b, Start(b))
  {
    SumZeros(|b.streams|);
    assert Unreported(Start(b)) == seq(|b.streams|, _ => 0);
  }

  /** The reader that a step is about. */
  function Actor(step: Step): Option<nat> {
    match step
    case Receive(i) => Some(i)
    case Check(i) => Some(i)
    case Count(i) => Some(i)
    case Judge(i) => Some(i)
    case Cancel(i) => Some(i)
    case ReportSkip(i) => Some(i)
    case Send(i) => Some(i)
    case GiveUp(i) => Some(i)
    case Close(i) => Some(i)
    case Collect => None
  }

  /** Others notice at most a larger total, an error, or messages of another stream. */
  lemma OthersUnmoved(b: Build, s: Sys, step: Step, j: nat)
    requires Enabled(b, s, step) && j < |b.streams| && Actor(step) != Some(j) && ReaderOkIn(b, s, j)
    ensures ReaderOkIn(b, Apply(b, s, step), j)
  {
    if step.Send? {
      OfStreamSnoc(s.sent, BuildRecord(step.i, s.readers[step.i].rec, s.readers[step.i].key), j);
    }
  }

  lemma JudgeMoves(b: Build, s: Sys, i: nat)
    requires Enabled(b, s, Judge(i)) && ReaderOkIn(b, s, i)
    ensures ReaderOkIn(b, ApplyJudge(b, s, i), i)
  {
    OneMore(b.streams[i], s.pos[i] - 1);
  }

  lemma SendMoves(b: Build, s: Sys, i: nat)
    requires Enabled(b, s, Send(i)) && ReaderOkIn(b, s, i)
    ensures ReaderOkIn(b, Apply(b, s, Send(i)), i)
  {
    OneMore(b.streams[i], s.pos[i] - 1);
    OfStreamSnoc(s.sent, BuildRecord(i, s.readers[i].rec, s.readers[i].key), i);
  }

  lemma SkipMoves(b: Build, s: Sys, i: nat)
    requires Enabled(b, s, ReportSkip(i)) && ReaderOkIn(b, s, i)
    ensures ReaderOkIn(b, Apply(b, s, ReportSkip(i)), i)
  {
  }

  lemma ActorMoves(b: Build, s: Sys, step: Step, i: nat)
    requires Enabled(b, s, step) && Actor(step) == Some(i) && ReaderOkIn(b, s, i) && CancelOk(s)
    ensures ReaderOkIn(b, Apply(b, s, step), i)
  {
    match step
    case Judge(_) => JudgeMoves(b, s, i);
    case Send(_) => SendMoves(b, s, i);
    case ReportSkip(_) => SkipMoves(b, s, i);
    case _ => HoldMoves(b, s, step, i);
  }

  lemma HoldMoves(b: Build, s: Sys, step: Step, i: nat)
    requires Enabled(b, s, step) && Actor(step) == Some(i) && ReaderOkIn(b, s, i) && CancelOk(s)
    requires step.Receive? || step.Check? || step.Count? || step.GiveUp? || step.Close? || step.Cancel?
    ensures ReaderOkIn(b, Apply(b, s, step), i)
  {
  }

  lemma CountMoves(b: Build, s: Sys, i: nat)
    requires Enabled(b, s, Count(i)) && GlobalOk(b, s)
    ensures GlobalOk(b, Apply(b, s, Count(i)))
  {
    SumUpdate(s.counted, i, s.counted[i] + 1);
    assert b.limit > 0 && s.total + 1 > b.limit ==> OverLimit(b, Apply(b, s, Count(i)).readers[i]);
  }

  lemma JudgeMovesAll(b: Build, s: Sys, i: nat)
    requires Enabled(b, s, Judge(i)) && GlobalOk(b, s) && s.readers[i].n <= s.total
    ensures GlobalOk(b, Apply(b, s, Judge(i)))
  {
    SumUpdate(s.skippedBy, i, s.skippedBy[i] + 1);
    LimitKept(b, s, Judge(i), i);
  }

  lemma GlobalMoves(b: Build, s: Sys, step: Step)
    requires Enabled(b, s, step) && GlobalOk(b, s)
    requires forall i :: 0 <= i < |b.streams| ==> s.readers[i].Counted? ==> s.readers[i].n <= s.total
    ensures GlobalOk(b, Apply(b, s, step))
  {
    match step
    case Count(i) => CountMoves(b, s, i);
    case Judge(i) => JudgeMovesAll(b, s, i);
    case Collect => assert s.channel == [s.channel[0]] + s.channel[1..];
    case _ => OtherMoves(b, s, step);
  }

  lemma OtherMoves(b: Build, s: Sys, step: Step)
    requires Enabled(b, s, step) && GlobalOk(b, s) && !step.Count? && !step.Judge? && !step.Collect?
    ensures GlobalOk(b, Apply(b, s, step))
  {
    LimitKept(b, s, step, Actor(step).value);
  }

  /** A reader that found the limit exceeded still holds that finding, or has raised the error. */
  lemma LimitKept(b: Build, s: Sys, step: Step, i: nat)
    requires Enabled(b, s, step) && GlobalOk(b, s) && Actor(step) == Some(i) && !step.Count?
    ensures var s' := Apply(b, s, step);
      b.limit > 0 && s'.total > b.limit && !s'.err ==> exists j :: 0 <= j < |s'.readers| && OverLimit(b, s'.readers[j])
  {
    var s' := Apply(b, s, step);
    if b.limit > 0 && s'.total > b.limit && !s'.err {
      var j :| 0 <= j < |s.readers| && OverLimit(b, s.readers[j]);
      assert OverLimit(b, s'.readers[j]);
    }
  }

  lemma UnreportedMoves(b: Build, s: Sys, step: Step, i: nat)
    requires Enabled(b, s, step) && Actor(step) == Some(i)
    ensures var s' := Apply(b, s, step);
      && i < |Unreported(s)| == |Unreported(s')| && Unreported(s') == Unreported(s)[i := Unreported(s')[i]]
      && Unreported(s)[i] == (if s.readers[i].Skipping? then 1 else 0)
      && Unreported(s')[i] == if s'.readers[i].Skipping? then 1 else 0
  {
  }

  lemma ReportsMove(b: Build, s: Sys, step: Step, i: nat)
    requires Enabled(b, s, step) && Actor(step) == Some(i) && ErrorsOk(b, s) && (step.GiveUp? ==> s.err)
    ensures var s' := Apply(b, s, step); s'.reported <= b.errorRoom && (s.err ==> s'.err)
    ensures var s' := Apply(b, s, step); !s'.err ==>
      s'.skipped - s.skipped == s'.reported - s.reported
        + (if s'.readers[i].Skipping? then 1 else 0) - (if s.readers[i].Skipping? then 1 else 0)
  {
  }

  lemma ErrorsMove(b: Build, s: Sys, step: Step)
    requires Enabled(b, s, step) && ErrorsOk(b, s) && (step.GiveUp? ==> s.err)
    ensures ErrorsOk(b, Apply(b, s, step))
  {
    var s' := Apply(b, s, step);
    if step.Collect? {
      assert Unreported(s') == Unreported(s);
    } else {
      var i := Actor(step).value;
      UnreportedMoves(b, s, step, i);
      ReportsMove(b, s, step, i);
      SumUpdate(Unreported(s), i, Unreported(s')[i]);
    }
  }

  lemma CancelMoves(b: Build, s: Sys, step: Step)
    requires Enabled(b, s, step) && CancelOk(s) && (step.Cancel? ==> s.err)
    ensures CancelOk(Apply(b, s, step))
  {
    var s' := Apply(b, s, step);
    if s'.err && !s'.cancelled {
      if s.err {
        var i :| 0 <= i < |s.readers| && s.readers[i].Cancelling?;
        assert s'.readers[i].Cancelling?;
      } else {
        assert s'.readers[step.i].Cancelling?;
      }
    }
  }

  lemma ReadersMove(b: Build, s: Sys, step: Step, j: nat)
    requires Enabled(b, s, step) && CancelOk(s) && j < |b.streams| && ReaderOkIn(b, s, j)
    ensures ReaderOkIn(b, Apply(b, s, step), j)
  {
    if Actor(step) == Some(j) { ActorMoves(b, s, step, j); } else { OthersUnmoved(b, s, step, j); }
  }

  /** What a reader knows of the totals. */
  lemma ReaderKnows(b: Build, s: Sys, i: nat)
    requires Shape(b, s) && i < |b.streams| && ReaderOkIn(b, s, i)
    ensures s.readers[i].Counted? ==> s.readers[i].n <= s.total
    ensures s.readers[i].Cancelling? ==> s.err
  {
  }

  lemma StepInv(b: Build, s: Sys, step: Step)
    requires Inv(b, s) && Enabled(b, s, step)
    ensures Inv(b, Apply(b, s, step))
  {
    forall j | 0 <= j < |b.streams| ensures ReaderOkIn(b, Apply(b, s, step), j) { ReadersMove(b, s, step, j); }
    forall i | 0 <= i < |b.streams|
      ensures s.readers[i].Counted? ==> s.readers[i].n <= s.total
    {
      ReaderKnows(b, s, i);
    }
    if step.Cancel? { ReaderKnows(b, s, step.i); }
    GlobalMoves(b, s, step);
    CancelMoves(b, s, step);
    ErrorsMove(b, s, step);
  }

  lemma {:induction false} RunInv(b: Build, s: Sys, run: seq<Step>)
    requires Inv(b, s) && IsRun(b, s, run)
    ensures Inv(b, After(b, s, run))
    decreases |run|
  {
    if run != [] {
      StepInv(b, s, run[0]);
      RunInv(b, Apply(b, s, run[0]), run[1..]);
    }
  }

  /** What one step does to whether a reader has returned, and to its place in its stream. */
  lemma LeaveStep(b: Build, s: Sys, step: Step, i: nat)
    requires Enabled(b, s, step) && i < |s.readers|
    ensures var s' := Apply(b, s, step);
      && Shape(b, s') && (s'.readers[i].Done? <==> s.readers[i].Done? || step == Close(i) || step == GiveUp(i))
      && (s.readers[i].Done? ==> s'.pos[i] == s.pos[i]) && (s.cancelled ==> s'.cancelled)
      && (step == Close(i) ==> s'.pos[i] == |b.streams[i]|) && (step == GiveUp(i) ==> s'.cancelled)
  {
  }

  /**
   Over every run: a reader has returned exactly if it found its stream closed or gave up while it waited.
   So even after an error it reads its stream to the end, unless it gives up, and then the phase was cancelled.
   */
  lemma {:induction false} ReadersLeave(b: Build, s: Sys, run: seq<Step>, i: nat)
    requires Shape(b, s) && IsRun(b, s, run) && i < |s.readers|
    ensures var s' := After(b, s, run);
      && Shape(b, s')
      && (s'.readers[i].Done? <==> s.readers[i].Done? || Close(i) in run || GiveUp(i) in run)
      && (s.readers[i].Done? ==> s'.pos[i] == s.pos[i])
      && (s'.readers[i].Done? && !s.readers[i].Done? && GiveUp(i) !in run ==> s'.pos[i] == |b.streams[i]|)
      && (s.cancelled || GiveUp(i) in run ==> s'.cancelled)
    decreases |run|
  {
    if run != [] {
      LeaveStep(b, s, run[0], i);
      ReadersLeave(b, Apply(b, s, run[0]), run[1..], i);
      assert forall step :: step in run <==> step == run[0] || step in run[1..];
    }
  }

  /** Over every run the channel holds at most a hundred records for every build stream; readers wait only then. */
  lemma {:induction false} ChannelIsBounded(b: Build, s: Sys, run: seq<Step>)
    requires Shape(b, s) && IsRun(b, s, run) && |s.channel| <= 100 * |b.streams|
    ensures var s' := After(b, s, run);
      && Shape(b, s') && |s'.channel| <= 100 * |b.streams|
      && forall i :: 0 <= i < |s'.readers| && s'.readers[i].Sending? ==>
           (Enabled(b, s', Send(i)) <==> |s'.channel| < 100 * |b.streams|)
    decreases |run|
  {
    if run != [] { ChannelIsBounded(b, Apply(b, s, run[0]), run[1..]); }
  }

  // ---- What a finished phase has done ----

  function Lengths(b: Build): seq<nat> {
    seq(|b.streams|, i requires 0 <= i < |b.streams| => |b.streams[i]|)
  }

  /** The records of each stream that have no key. */
  function KeyErrors(b: Build): seq<nat>
    requires b.Valid()
  {
    seq(|b.streams|, i requires 0 <= i < |b.streams| => Keyless(b, i, b.streams[i]))
  }

  /**
   The phase fails exactly if the limit is set and there are more build records than it allows. If
   it does not fail, every record was counted, the ones without a key were skipped, and the collector
   got each stream's other records, once each and in stream order, whatever the interleaving.
   */
  lemma BuildPhaseExact(b: Build, run: seq<Step>)
    requires b.Valid() && IsRun(b, Start(b), run) && Finished(After(b, Start(b), run))
    ensures var s := After(b, Start(b), run);
      && (s.err <==> b.limit > 0 && Sum(Lengths(b)) > b.limit)
      && (!s.err ==>
        && s.total == Sum(Lengths(b))
        && s.reported == s.skipped == Sum(KeyErrors(b))
        && forall i :: 0 <= i < |b.streams| ==> OfStream(s.taken, i) == Keyed(b, i, b.streams[i]))
  {
    var s := After(b, Start(b), run);
    StartInv(b);
    RunInv(b, Start(b), run);
    forall i | 0 <= i < |b.streams| ensures s.counted[i] <= |b.streams[i]| { assert ReaderOkIn(b, s, i); }
    SumAtMost(s.counted, Lengths(b));
    if !s.err {
      forall i | 0 <= i < |b.streams|
        ensures s.counted[i] == |b.streams[i]| && s.skippedBy[i] == Keyless(b, i, b.streams[i])
        ensures OfStream(s.taken, i) == Keyed(b, i, b.streams[i])
      {
        assert ReaderOkIn(b, s, i);
        assert b.streams[i][..|b.streams[i]|] == b.streams[i];
        assert s.taken + s.channel == s.taken;
      }
      assert s.counted == Lengths(b);
      assert s.skippedBy == KeyErrors(b);
      assert Unreported(s) == seq(|s.readers|, _ => 0);
      SumZeros(|s.readers|);
    }
  }

  // ---- The phase always ends ----

  function Weight(r: Reader): nat {
    match r
    case Done => 0
    case Top => 1
    case Sending(_, _) => 3
    case Skipping(_) => 3
    case Cancelling(_) => 2
    case Counted(_, _) => 4
    case Admitted(_) => 5
    case Received(_) => 6
  }

  function ReaderWork(b: Build, s: Sys): seq<nat>
    requires Shape(b, s) && forall i :: 0 <= i < |s.pos| ==> s.pos[i] <= |b.streams[i]|
  {
    seq(|b.streams|, i requires 0 <= i < |b.streams| => 6 * (|b.streams[i]| - s.pos[i]) + Weight(s.readers[i]))
  }

  ghost predicate WithinInput(b: Build, s: Sys) {
    Shape(b, s) && forall i :: 0 <= i < |s.pos| ==> s.pos[i] <= |b.streams[i]|
  }

  lemma ActorWorks(b: Build, s: Sys, step: Step, i: nat)
    requires WithinInput(b, s) && Enabled(b, s, step) && Actor(step) == Some(i)
    ensures var s' := Apply(b, s, step);
      WithinInput(b, s') && ReaderWork(b, s') == ReaderWork(b, s)[i := ReaderWork(b, s')[i]]
      && ReaderWork(b, s')[i] + |s'.channel| < ReaderWork(b, s)[i] + |s.channel|
  {
  }

  /** Every step uses up some of a bounded amount of work, so every run ends. */
  lemma StepWorks(b: Build, s: Sys, step: Step)
    requires WithinInput(b, s) && Enabled(b, s, step)
    ensures var s' := Apply(b, s, step);
      WithinInput(b, s') && Sum(ReaderWork(b, s')) + |s'.channel| < Sum(ReaderWork(b, s)) + |s.channel|
  {
    if step.Collect? {
      assert ReaderWork(b, Apply(b, s, step)) == ReaderWork(b, s);
    } else {
      var i := Actor(step).value;
      ActorWorks(b, s, step, i);
      SumUpdate(ReaderWork(b, s), i, ReaderWork(b, Apply(b, s, step))[i]);
    }
  }

  lemma {:induction false} RunsAreBounded(b: Build, s: Sys, run: seq<Step>)
    requires WithinInput(b, s) && IsRun(b, s, run)
    ensures |run| <= Sum(ReaderWork(b, s)) + |s.channel|
    decreases |run|
  {
    if run != [] {
      StepWorks(b, s, run[0]);
      RunsAreBounded(b, Apply(b, s, run[0]), run[1..]);
    }
  }

  ghost predicate Stuck(b: Build, s: Sys) {
    forall step :: !Enabled(b, s, step)
  }

  /** A phase that cannot go on has finished, or all its readers have, but for those that wait to report a key error. */
  lemma StuckMeans(b: Build, s: Sys)
    requires WithinInput(b, s) && CancelOk(s) && Stuck(b, s)
    ensures s.channel == [] && forall i :: 0 <= i < |s.readers| ==> s.readers[i].Done? || s.readers[i].Skipping?
    ensures !Finished(s) ==> !s.err && s.reported >= b.errorRoom
  {
    assert !Enabled(b, s, Collect);
    forall i | 0 <= i < |s.readers|
      ensures s.readers[i].Done? || (s.readers[i].Skipping? && !s.cancelled && s.reported >= b.errorRoom)
    {
      assert !Enabled(b, s, Receive(i)) && !Enabled(b, s, Close(i)) && !Enabled(b, s, Check(i));
      assert !Enabled(b, s, Count(i)) && !Enabled(b, s, Judge(i)) && !Enabled(b, s, Cancel(i));
      assert !Enabled(b, s, ReportSkip(i)) && !Enabled(b, s, Send(i)) && !Enabled(b, s, GiveUp(i));
    }
  }

  /** Every run can be continued until nothing is possible any more. */
  lemma {:induction false} RunToEnd(b: Build, s: Sys) returns (run: seq<Step>)
    requires WithinInput(b, s)
    ensures IsRun(b, s, run) && WithinInput(b, After(b, s, run)) && Stuck(b, After(b, s, run))
    decreases Sum(ReaderWork(b, s)) + |s.channel|
  {
    if step :| Enabled(b, s, step) {
      StepWorks(b, s, step);
      var rest := RunToEnd(b, Apply(b, s, step));
      run := [step] + rest;
      assert run[1..] == rest;
    } else {
      run := [];
    }
  }

  lemma {:induction false} KeylessGrows(b: Build, i: nat, rs: seq<Rec>, n: nat)
    requires i < |b.cfg.buildNames| && n <= |rs|
    ensures Keyless(b, i, rs[..n]) <= Keyless(b, i, rs)
    decreases |rs|
  {
    if n == |rs| {
      assert rs[..n] == rs;
    } else {
      assert rs[..|rs| - 1][..n] == rs[..n];
      KeylessGrows(b, i, rs[..|rs| - 1], n);
    }
  }

  lemma Within(b: Build, s: Sys)
    requires Inv(b, s)
    ensures WithinInput(b, s)
  {
    forall i | 0 <= i < |s.pos| ensures s.pos[i] <= |b.streams[i]| { assert ReaderOkIn(b, s, i); }
  }

  /** With room for every key error, a phase that has not finished can go on. */
  lemma RoomIsEnough(b: Build, s: Sys)
    requires Inv(b, s) && Sum(KeyErrors(b)) <= b.errorRoom && Stuck(b, s)
    ensures Finished(s)
  {
    Within(b, s);
    StuckMeans(b, s);
    if !Finished(s) {
      forall i | 0 <= i < |b.streams| ensures s.skippedBy[i] <= KeyErrors(b)[i] {
        assert ReaderOkIn(b, s, i);
        KeylessGrows(b, i, b.streams[i], Back(s.pos[i], s.readers[i].Unjudged()));
      }
      SumAtMost(s.skippedBy, KeyErrors(b));
      assert Sum(Unreported(s)) == 0;
      var i :| 0 <= i < |s.readers| && !s.readers[i].Done?;
      SumUpdate(Unreported(s), i, 0);
    }
  }

  /**
   As long as the limit does not interfere, the build phase always ends if and only if the error channel
   has room for all its key errors.
   */
  lemma BuildPhaseEndsIff(b: Build)
    requires b.Valid() && (b.limit == 0 || Sum(Lengths(b)) <= b.limit)
    ensures (forall run :: IsRun(b, Start(b), run) && Stuck(b, After(b, Start(b), run)) ==>
      Finished(After(b, Start(b), run)))
      <==> Sum(KeyErrors(b)) <= b.errorRoom
  {
    StartInv(b);
    if Sum(KeyErrors(b)) <= b.errorRoom {
      forall run | IsRun(b, Start(b), run) && Stuck(b, After(b, Start(b), run))
        ensures Finished(After(b, Start(b), run))
      {
        RunInv(b, Start(b), run);
        RoomIsEnough(b, After(b, Start(b), run));
      }
    } else {
      Within(b, Start(b));
      var run := RunToEnd(b, Start(b));
      NoRoomNoEnd(b, run);
    }
  }

  /** Without that room no run ever finishes: some reader waits for ever to report a key error. */
  lemma NoRoomNoEnd(b: Build, run: seq<Step>)
    requires b.Valid() && (b.limit == 0 || Sum(Lengths(b)) <= b.limit)
    requires IsRun(b, Start(b), run) && Sum(KeyErrors(b)) > b.errorRoom
    ensures !Finished(After(b, Start(b), run))
  {
    StartInv(b);
    RunInv(b, Start(b), run);
    if Finished(After(b, Start(b), run)) { BuildPhaseExact(b, run); }
  }
}
