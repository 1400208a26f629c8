/**
 The passthrough module as a state machine: one reader per input, an unbuffered merged stream, and a
 writer that copies each merged record to every output. Readers and writer move independently.
 */
module Passthrough {
  import opened Prelude

  datatype Record = Record(fields: map<string, string>)

  const SOURCE_FIELD := "_passthrough_source_id"

  /** The inputs with the ids of their producers, and the number of outputs. */
  datatype Job = Job(ids: seq<string>, inputs: seq<seq<Record>>, outputs: nat) {
    ghost predicate Valid() { |ids| == |inputs| && NoDup(ids) }
  }

  function Tag(r: Record, id: string): Record {
    Record(r.fields[SOURCE_FIELD := id])
  }

  function TagAll(rs: seq<Record>, id: string): seq<Record> {
    seq(|rs|, i requires 0 <= i < |rs| => Tag(rs[i], id))
  }

  predicate IsFrom(r: Record, id: string) {
    SOURCE_FIELD in r.fields && r.fields[SOURCE_FIELD] == id
  }

  /** The records tagged with a source, in order. */
  function From(rs: seq<Record>, id: string): seq<Record> {
    if rs == [] then []
    else From(rs[..|rs| - 1], id) + if IsFrom(rs[|rs| - 1], id) then [rs[|rs| - 1]] else []
  }

  datatype Reader = Top | Holding(rec: Record) | Done

  /** The writer waits for a merged record, or has written one to its first outputs. */
  datatype Writer = Waiting | Writing(rec: Record, next: nat)

  /** merged is history: all records that went through the merged stream. */
  datatype Sys = Sys(readers: seq<Reader>, pos: seq<nat>, writer: Writer,
                     outputs: seq<seq<Record>>, processed: nat, merged: seq<Record>)

  datatype Step =
    | Receive(i: nat)
    | HandOver(i: nat)   // reader and writer meet on the unbuffered channel
    | Write
    | NextRecord
    | Close(i: nat)

  function Start(job: Job): Sys {
    var n := |job.inputs|;
    Sys(seq(n, _ => Top), seq(n, _ => 0), Waiting, seq(job.outputs, _ => []), 0, [])
  }

  ghost predicate Shape(job: Job, s: Sys) {
    job.Valid() && |s.readers| == |s.pos| == |job.inputs| && |s.outputs| == job.outputs
  }

  ghost predicate Enabled(job: Job, s: Sys, step: Step) {
    && Shape(job, s)
    && match step
       case Receive(i) => i < |s.readers| && s.readers[i].Top? && s.pos[i] < |job.inputs[i]|
       case HandOver(i) => i < |s.readers| && s.readers[i].Holding? && s.writer.Waiting?
       case Write => s.writer.Writing? && s.writer.next < |s.outputs|
       case NextRecord => s.writer.Writing? && s.writer.next == |s.outputs|
       case Close(i) => i < |s.readers| && s.readers[i].Top? && s.pos[i] == |job.inputs[i]|
  }

  ghost function Apply(job: Job, s: Sys, step: Step): Sys
    requires Enabled(job, s, step)
  {
    match step
    case Receive(i) =>
      s.(readers := s.readers[i := Holding(Tag(job.inputs[i][s.pos[i]], job.ids[i]))], pos := s.pos[i := s.pos[i] + 1])
    case HandOver(i) =>
      var r := s.readers[i].rec;
      s.(readers := s.readers[i := Top], writer := Writing(r, 0), processed := s.processed + 1,
        merged := s.merged + [r])
    case Write =>
      var j := s.writer.next;
      s.(outputs := s.outputs[j := s.outputs[j] + [s.writer.rec]], writer := Writing(s.writer.rec, j + 1))
    case NextRecord => s.(writer := Waiting)
    case Close(i) => s.(readers := s.readers[i := Done])
  }

  ghost predicate IsRun(job: Job, s: Sys, run: seq<Step>)
    decreases |run|
  {
    run == [] || (Enabled(job, s, run[0]) && IsRun(job, Apply(job, s, run[0]), run[1..]))
  }

  ghost function After(job: Job, s: Sys, run: seq<Step>): Sys
    requires IsRun(job, s, run)
    decreases |run|
  {
    if run == [] then s else After(job, Apply(job, s, run[0]), run[1..])
  }

  /** All readers have returned, so the merged stream is closed, and the last record is written out. */
  predicate Finished(s: Sys) {
    (forall i :: 0 <= i < |s.readers| ==> s.readers[i].Done?) && s.writer.Waiting?
  }

  // ---- The invariant ----

  function HandedOver(r: Reader, pos: nat): nat {
    if r.Holding? && pos > 0 then pos - 1 else pos
  }

  function Handed(s: Sys): seq<nat>
    requires |s.readers| == |s.pos|
  {
    seq(|s.readers|, i requires 0 <= i < |s.readers| => HandedOver(s.readers[i], s.pos[i]))
  }

  ghost predicate ReaderOk(job: Job, s: Sys, i: nat)
    requires Shape(job, s) && i < |s.readers|
  {
    && s.pos[i] <= |job.inputs[i]|
    && (s.readers[i].Holding? ==> s.pos[i] > 0 && s.readers[i].rec == Tag(job.inputs[i][s.pos[i] - 1], job.ids[i]))
    && (s.readers[i].Done? ==> s.pos[i] == |job.inputs[i]|)
    && From(s.merged, job.ids[i]) == TagAll(job.inputs[i][..HandedOver(s.readers[i], s.pos[i])], job.ids[i])
  }

  /** Outputs the writer has served hold all merged records; the others lack the one being written. */
  ghost predicate OutputsOk(s: Sys) {
    match s.writer
    case Waiting => forall j :: 0 <= j < |s.outputs| ==> s.outputs[j] == s.merged
    case Writing(r, next) =>
      && next <= |s.outputs| && s.merged != [] && r == s.merged[|s.merged| - 1]
      && forall j :: 0 <= j < |s.outputs| ==> s.outputs[j] == if j < next then s.merged else s.merged[..|s.merged| - 1]
  }

  ghost predicate Inv(job: Job, s: Sys) {
    && Shape(job, s) && OutputsOk(s) && s.processed == |s.merged| == Sum(Handed(s))
    && forall i :: 0 <= i < |s.readers| ==> ReaderOk(job, s, i)
  }

  lemma StartInv(job: Job)
    requires job.Valid()
    ensures Inv(job, Start(job))
  {
    SumZeros(|job.inputs|);
    assert Handed(Start(job)) == seq(|job.inputs|, _ => 0);
  }

  lemma HandOverReader(job: Job, s: Sys, i: nat, j: nat)
    requires Enabled(job, s, HandOver(i)) && j < |s.readers| && ReaderOk(job, s, j) && ReaderOk(job, s, i)
    ensures ReaderOk(job, Apply(job, s, HandOver(i)), j)
  {
  }

  lemma HandOverInv(job: Job, s: Sys, i: nat)
    requires Inv(job, s) && Enabled(job, s, HandOver(i))
    ensures Inv(job, Apply(job, s, HandOver(i)))
  {
    var s' := Apply(job, s, HandOver(i));
    forall j | 0 <= j < |s'.readers| ensures ReaderOk(job, s', j) { HandOverReader(job, s, i, j); }
    assert ReaderOk(job, s, i);
    assert Handed(s') == Handed(s)[i := Handed(s)[i] + 1];
    SumUpdate(Handed(s), i, Handed(s)[i] + 1);
  }

  /** Every other step leaves what was handed over as it is. */
  lemma StepInv(job: Job, s: Sys, step: Step)
    requires Inv(job, s) && Enabled(job, s, step)
    ensures Inv(job, Apply(job, s, step))
  {
    if step.HandOver? {
      HandOverInv(job, s, step.i);
    } else {
      var s' := Apply(job, s, step);
      assert Handed(s') == Handed(s);
      forall j | 0 <= j < |s'.readers| ensures ReaderOk(job, s', j) { assert ReaderOk(job, s, j); }
    }
  }

  lemma {:induction false} RunInv(job: Job, s: Sys, run: seq<Step>)
    requires Inv(job, s) && IsRun(job, s, run)
    ensures Inv(job, After(job, s, run))
    decreases |run|
  {
    if run != [] {
      StepInv(job, s, run[0]);
      RunInv(job, Apply(job, s, run[0]), run[1..]);
    }
  }

  // ---- What a finished run has done ----

  function Lengths(job: Job): seq<nat> {
    seq(|job.inputs|, i requires 0 <= i < |job.inputs| => |job.inputs[i]|)
  }

  /**
   For every interleaving all outputs get one and the same sequence. It holds every input record,
   tagged with its source, and those of each source in the order of that input; the count is the
   number of all input records.
   */
  lemma PassesEverything(job: Job, run: seq<Step>)
    requires job.Valid() && IsRun(job, Start(job), run) && Finished(After(job, Start(job), run))
    ensures var s := After(job, Start(job), run);
      && |s.outputs| == job.outputs && (forall j :: 0 <= j < |s.outputs| ==> s.outputs[j] == s.merged)
      && (forall i :: 0 <= i < |job.inputs| ==> From(s.merged, job.ids[i]) == TagAll(job.inputs[i], job.ids[i]))
      && s.processed == |s.merged| == Sum(Lengths(job))
  {
    var s := After(job, Start(job), run);
    StartInv(job);
    RunInv(job, Start(job), run);
    forall i | 0 <= i < |job.inputs|
      ensures Handed(s)[i] == |job.inputs[i]| && From(s.merged, job.ids[i]) == TagAll(job.inputs[i], job.ids[i])
    {
      assert ReaderOk(job, s, i);
      assert job.inputs[i][..|job.inputs[i]|] == job.inputs[i];
    }
    assert Handed(s) == Lengths(job);
  }

  // ---- What an output holds, record by record ----

  /** The record out is the record in with the source added, and nothing else changed. */
  ghost predicate IsCopyFrom(out: Record, r: Record, id: string) {
    && HasSource(out, id)
    && forall f :: f != "_passthrough_source_id" ==>
         (f in out.fields <==> f in r.fields) && (f in r.fields ==> out.fields[f] == r.fields[f])
  }

  ghost predicate HasSource(r: Record, id: string) {
    "_passthrough_source_id" in r.fields && r.fields["_passthrough_source_id"] == id
  }

  lemma SourceIsFrom(r: Record, id: string)
    ensures HasSource(r, id) <==> IsFrom(r, id)
  {
  }

  /** places lists, in order, where the records with this source stand. */
  ghost predicate ArePlaces(out: seq<Record>, id: string, places: seq<nat>) {
    && (forall i, j :: 0 <= i < j < |places| ==> places[i] < places[j])
    && (forall i :: 0 <= i < |places| ==> places[i] < |out|)
    && forall k: nat :: k < |out| ==> (k in places <==> HasSource(out[k], id))
  }

  lemma PlacesStep(init: seq<Record>, last: Record, id: string, before: seq<nat>)
    requires ArePlaces(init, id, before)
    ensures ArePlaces(init + [last], id, if HasSource(last, id) then before + [|init|] else before)
  {
    var places, out := if HasSource(last, id) then before + [|init|] else before, init + [last];
    forall k: nat | k < |out| ensures k in places <==> HasSource(out[k], id) {
      assert k in places <==> k in before || (k == |init| && HasSource(last, id));
    }
  }

  /** The records that stand at these places. */
  ghost predicate StandAt(out: seq<Record>, places: seq<nat>, from: seq<Record>) {
    && |from| == |places|
    && forall k {:trigger from[k]} :: 0 <= k < |from| ==> places[k] < |out| && from[k] == out[places[k]]
  }

  lemma StandStep(init: seq<Record>, last: Record, places: seq<nat>, from: seq<Record>)
    requires StandAt(init, places, from)
    ensures StandAt(init + [last], places, from) && StandAt(init + [last], places + [|init|], from + [last])
  {
    forall k | 0 <= k < |from| ensures places[k] < |init| && from[k] == init[places[k]] {
      var r := from[k];
      assert r == init[places[k]];
    }
  }

  lemma FromStep(init: seq<Record>, last: Record, id: string)
    ensures From(init + [last], id) == if HasSource(last, id) then From(init, id) + [last] else From(init, id)
  {
    SourceIsFrom(last, id);
    assert (init + [last])[..|init|] == init;
  }

  ghost predicate Locates(out: seq<Record>, id: string, places: seq<nat>) {
    ArePlaces(out, id, places) && StandAt(out, places, From(out, id))
  }

  lemma OneMorePlace(init: seq<Record>, last: Record, id: string, before: seq<nat>)
    requires Locates(init, id, before)
    ensures Locates(init + [last], id, if HasSource(last, id) then before + [|init|] else before)
  {
    PlacesStep(init, last, id, before);
    FromStep(init, last, id);
    StandStep(init, last, before, From(init, id));
  }

  lemma PlacesOf(out: seq<Record>, id: string) returns (places: seq<nat>)
    ensures Locates(out, id, places)
  {
    places := [];
    for n := 0 to |out|
      invariant Locates(out[..n], id, places)
    {
      OneMorePlace(out[..n], out[n], id, places);
      assert out[..n + 1] == out[..n] + [out[n]];
      if HasSource(out[n], id) { places := places + [n]; }
    }
    assert out[..|out|] == out;
  }

  /**
   In every output the k-th record with the source of an input is the k-th record of that input, with the
   source field set and all its other fields as they were.
   */
  lemma OutputsHoldInputs(job: Job, run: seq<Step>, i: nat, j: nat) returns (places: seq<nat>)
    requires job.Valid() && IsRun(job, Start(job), run) && Finished(After(job, Start(job), run))
    requires i < |job.inputs| && j < job.outputs
    ensures var s := After(job, Start(job), run);
      && j < |s.outputs| && ArePlaces(s.outputs[j], job.ids[i], places) && |places| == |job.inputs[i]|
      && forall k :: 0 <= k < |places| ==> IsCopyFrom(s.outputs[j][places[k]], job.inputs[i][k], job.ids[i])
  {
    var s := After(job, Start(job), run);
    PassesEverything(job, run);
    places := PlacesOf(s.outputs[j], job.ids[i]);
    forall k | 0 <= k < |places| ensures IsCopyFrom(s.outputs[j][places[k]], job.inputs[i][k], job.ids[i]) {
      assert s.outputs[j][places[k]] == TagAll(job.inputs[i], job.ids[i])[k] == Tag(job.inputs[i][k], job.ids[i]);
      TagMeans(job.inputs[i][k], job.ids[i]);
    }
  }

  lemma TagMeans(r: Record, id: string)
    ensures IsCopyFrom(Tag(r, id), r, id)
  {
  }

  // ---- Every run ends, and only when finished ----

  function Weight(r: Reader, left: nat, outputs: nat): nat {
    (outputs + 4) * left + match r case Done => 0 case Top => 1 case Holding(_) => outputs + 4
  }

  function Unread(input: seq<Record>, pos: nat): nat {
    if pos <= |input| then |input| - pos else 0
  }

  ghost function ReaderWork(job: Job, s: Sys): seq<nat>
    requires Shape(job, s)
  {
    seq(|s.readers|, i requires 0 <= i < |s.readers| =>
      Weight(s.readers[i], Unread(job.inputs[i], s.pos[i]), job.outputs))
  }

  function WriterWork(s: Sys): int {
    if s.writer.Waiting? then 0 else |s.outputs| - s.writer.next + 1
  }

  ghost function Work(job: Job, s: Sys): int
    requires Inv(job, s)
  {
    Sum(ReaderWork(job, s)) + WriterWork(s)
  }

  lemma WorkStep(job: Job, s: Sys, step: Step)
    requires Inv(job, s) && Enabled(job, s, step)
    ensures Inv(job, Apply(job, s, step)) && 0 <= Work(job, Apply(job, s, step)) < Work(job, s)
  {
    StepInv(job, s, step);
    var s' := Apply(job, s, step);
    var w, w' := ReaderWork(job, s), ReaderWork(job, s');
    if step.Write? || step.NextRecord? {
      assert w' == w;
    } else {
      assert w' == w[step.i := w'[step.i]];
      SumUpdate(w, step.i, w'[step.i]);
      if step.Receive? { LessLeft(job.outputs + 4, Unread(job.inputs[step.i], s.pos[step.i])); }
    }
  }

  lemma LessLeft(k: nat, left: int)
    ensures k * left == k * (left - 1) + k
  {
  }

  lemma {:induction false} RunsAreBounded(job: Job, s: Sys, run: seq<Step>)
    requires Inv(job, s) && IsRun(job, s, run)
    ensures |run| <= Work(job, s)
    decreases |run|
  {
    if run != [] {
      WorkStep(job, s, run[0]);
      RunsAreBounded(job, Apply(job, s, run[0]), run[1..]);
    }
  }

  lemma NeverStuck(job: Job, s: Sys) returns (step: Step)
    requires Inv(job, s) && !Finished(s)
    ensures Enabled(job, s, step)
  {
    if s.writer.Writing? {
      step := if s.writer.next < |s.outputs| then Write else NextRecord;
    } else {
      var i :| 0 <= i < |s.readers| && !s.readers[i].Done?;
      assert ReaderOk(job, s, i);
      step := if s.readers[i].Holding? then HandOver(i) else if s.pos[i] < |job.inputs[i]| then Receive(i)
        else Close(i);
    }
  }
}
