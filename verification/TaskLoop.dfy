/**
 The loop of a looped task as a state machine: a launcher that waits for a place in a semaphore
 before each iteration, and iterations that run, record their result under a lock and give back
 their place, in any interleaving.
 */
module TaskLoop {
  import opened Prelude

  datatype Outcome = Success(summary: string) | SkippedError | Failure(error: string)

  /** What the loop reports; the context's own error if it ended while the launcher waited. */
  datatype LoopError = ContextDone | IterationFailed(error: string)

  datatype Iteration =
    | NotLaunched
    | Launched
    | Executing
    | Recording
    | Releasing(ran: bool)   // false if the context had ended before it began
    | Gone(ran: bool)
  {
    predicate Active() { Launched? || Executing? || Recording? || Releasing? }
    predicate Recorded() { (Releasing? || Gone?) && ran }
  }

  datatype Launcher = Launching | Waiting | Returned

  /** The loop: how many items, how many places, and the result of each iteration that runs. */
  datatype Loop = Loop(items: nat, parallelism: nat, outcome: nat -> Outcome)

  /** recorded is history: the iterations whose results were recorded, in that order. */
  datatype Sys = Sys(launcher: Launcher, next: nat, places: nat, iterations: seq<Iteration>,
                     err: Option<LoopError>, summary: Option<string>, cancelled: bool, recorded: seq<nat>)

  datatype Step =
    | Launch
    | LaunchCancelled
    | AllLaunched
    | Begin(i: nat)
    | Finish(i: nat)
    | Record(i: nat)
    | Release(i: nat)
    | Return
    | Cancel

  function Start(l: Loop): Sys {
    Sys(Launching, 0, 0, seq(l.items, _ => NotLaunched), None, None, false, [])
  }

  ghost predicate Enabled(l: Loop, s: Sys, step: Step) {
    match step
    case Launch => s.launcher.Launching? && s.next < |s.iterations| && s.places < l.parallelism
    case LaunchCancelled => s.launcher.Launching? && s.next < |s.iterations| && s.cancelled
    case AllLaunched => s.launcher.Launching? && s.next == |s.iterations|
    case Begin(i) => i < |s.iterations| && s.iterations[i].Launched?
    case Finish(i) => i < |s.iterations| && s.iterations[i].Executing?
    case Record(i) => i < |s.iterations| && s.iterations[i].Recording?
    case Release(i) => i < |s.iterations| && s.iterations[i].Releasing? && s.places > 0
    case Return => s.launcher.Waiting? && forall i :: 0 <= i < |s.iterations| ==> !s.iterations[i].Active()
    case Cancel => !s.cancelled
  }

  function To(s: Sys, i: nat, it: Iteration): Sys
    requires i < |s.iterations|
  {
    s.(iterations := s.iterations[i := it])
  }

  function ApplyRecord(l: Loop, s: Sys, i: nat): Sys
    requires i < |s.iterations|
  {
    var s1 := To(s, i, Releasing(true)).(recorded := s.recorded + [i]);
    match l.outcome(i)
    case Failure(e) => if s.err.None? then s1.(err := Some(IterationFailed(e))) else s1
    case Success(m) => if s.err.None? then s1.(summary := Some(m)) else s1
    case SkippedError => s1
  }

  ghost function Apply(l: Loop, s: Sys, step: Step): Sys
    requires Enabled(l, s, step)
  {
    match step
    case Launch => To(s, s.next, Launched).(next := s.next + 1, places := s.places + 1)
    case LaunchCancelled => s.(launcher := Waiting, err := if s.err.None? then Some(ContextDone) else s.err)
    case AllLaunched => s.(launcher := Waiting)
    case Begin(i) => To(s, i, if s.cancelled then Releasing(false) else Executing)
    case Finish(i) => To(s, i, Recording)
    case Record(i) => ApplyRecord(l, s, i)
    case Release(i) => To(s, i, Gone(s.iterations[i].ran)).(places := s.places - 1)
    case Return => s.(launcher := Returned)
    case Cancel => s.(cancelled := true)
  }

  ghost predicate IsRun(l: Loop, s: Sys, run: seq<Step>)
    decreases |run|
  {
    run == [] || (Enabled(l, s, run[0]) && IsRun(l, Apply(l, s, run[0]), run[1..]))
  }

  ghost function After(l: Loop, s: Sys, run: seq<Step>): Sys
    requires IsRun(l, s, run)
    decreases |run|
  {
    if run == [] then s else After(l, Apply(l, s, run[0]), run[1..])
  }

  // ---- What the recorded results amount to ----

  /** The first failure recorded. */
  function FirstFailure(l: Loop, recorded: seq<nat>): Option<string> {
    if recorded == [] then None
    else match FirstFailure(l, recorded[..|recorded| - 1])
         case Some(e) => Some(e)
         case None => (match l.outcome(recorded[|recorded| - 1]) case Failure(e) => Some(e) case _ => None)
  }

  /** The last success recorded before any failure. */
  function LastSuccess(l: Loop, recorded: seq<nat>): Option<string> {
    if recorded == [] then None
    else
      var init := recorded[..|recorded| - 1];
      match l.outcome(recorded[|recorded| - 1])
      case Success(m) => if FirstFailure(l, init).None? then Some(m) else LastSuccess(l, init)
      case _ => LastSuccess(l, init)
  }

  lemma {:induction false} FirstFailureMeans(l: Loop, recorded: seq<nat>)
    ensures FirstFailure(l, recorded).None? <==> forall i :: i in recorded ==> !l.outcome(i).Failure?
    ensures FirstFailure(l, recorded).Some? ==>
      exists i :: i in recorded && l.outcome(i) == Failure(FirstFailure(l, recorded).value)
  {
    if recorded != [] {
      assert recorded == recorded[..|recorded| - 1] + [recorded[|recorded| - 1]];
      FirstFailureMeans(l, recorded[..|recorded| - 1]);
    }
  }

  lemma {:induction false} LastSuccessMeans(l: Loop, recorded: seq<nat>)
    requires FirstFailure(l, recorded).None?
    ensures LastSuccess(l, recorded).None? <==> forall i :: i in recorded ==> !l.outcome(i).Success?
    ensures LastSuccess(l, recorded).Some? ==>
      exists i :: i in recorded && l.outcome(i) == Success(LastSuccess(l, recorded).value)
  {
    if recorded != [] {
      assert recorded == recorded[..|recorded| - 1] + [recorded[|recorded| - 1]];
      LastSuccessMeans(l, recorded[..|recorded| - 1]);
    }
  }

  // ---- The invariant ----

  predicate IsActive(s: Sys, i: nat) {
    i < |s.iterations| && s.iterations[i].Active()
  }

  function ActiveOnes(s: Sys): set<nat> {
    set i: nat | i < |s.iterations| && IsActive(s, i)
  }

  predicate WasRecorded(s: Sys, i: nat) {
    i < |s.iterations| && s.iterations[i].Recorded()
  }

  /** The places taken are those of the iterations in flight, and launching goes in order. */
  ghost predicate PlacesOk(l: Loop, s: Sys) {
    && |s.iterations| == l.items && s.next <= l.items && s.places == |ActiveOnes(s)| <= l.parallelism
    && forall i: nat :: i < l.items ==> (i < s.next <==> !s.iterations[i].NotLaunched?)
  }

  ghost predicate HistoryOk(s: Sys) {
    NoDup(s.recorded) && forall i: nat :: i in s.recorded <==> WasRecorded(s, i)
  }

  /** The result of the records so far: the first failure, if there is one. */
  function ErrorOf(l: Loop, recorded: seq<nat>): Option<LoopError> {
    match FirstFailure(l, recorded)
    case None => None
    case Some(e) => Some(IterationFailed(e))
  }

  /** The launcher left the loop with items not launched, because the context had ended. */
  predicate BrokenOff(s: Sys) {
    !s.launcher.Launching? && s.next < |s.iterations|
  }

  /**
   Iterations are passed over only after the context has ended. The error is that of the records,
   unless the launcher broke off with none: then it is the context's, and stays so.
   */
  ghost predicate ResultOk(l: Loop, s: Sys) {
    && (forall i: nat ::
          i < |s.iterations| && (s.iterations[i].Releasing? || s.iterations[i].Gone?) && !s.iterations[i].ran ==>
            s.cancelled)
    && (BrokenOff(s) ==> s.cancelled && s.err.Some? && (s.err == Some(ContextDone) || s.err == ErrorOf(l, s.recorded)))
    && (!BrokenOff(s) ==> s.err == ErrorOf(l, s.recorded) && s.summary == LastSuccess(l, s.recorded))
    && (s.summary.Some? ==> exists i :: i in s.recorded && l.outcome(i) == Success(s.summary.value))
  }

  ghost predicate ReturnOk(s: Sys) {
    s.launcher.Returned? ==> forall i: nat :: i < |s.iterations| ==> !IsActive(s, i) && !s.iterations[i].Active()
  }

  ghost predicate Inv(l: Loop, s: Sys) {
    PlacesOk(l, s) && HistoryOk(s) && ResultOk(l, s) && ReturnOk(s)
  }

  lemma StartInv(l: Loop)
    ensures Inv(l, Start(l))
  {
  }

  lemma ActiveAfter(s: Sys, i: nat, it: Iteration)
    requires i < |s.iterations|
    ensures ActiveOnes(To(s, i, it)) == ActiveOnes(s) - {i} + if it.Active() then {i} else {}
    ensures |ActiveOnes(To(s, i, it))| ==
      |ActiveOnes(s)| - (if IsActive(s, i) then 1 else 0) + (if it.Active() then 1 else 0)
  {
  }

  lemma SameActive(s: Sys, s': Sys)
    requires s'.iterations == s.iterations
    ensures ActiveOnes(s') == ActiveOnes(s)
  {
  }

  lemma RecordPlaces(l: Loop, s: Sys, i: nat)
    requires PlacesOk(l, s) && Enabled(l, s, Record(i))
    ensures PlacesOk(l, ApplyRecord(l, s, i)) && IsActive(s, i)
  {
    ActiveAfter(s, i, Releasing(true));
    SameActive(To(s, i, Releasing(true)), ApplyRecord(l, s, i));
  }

  lemma RecordHistory(l: Loop, s: Sys, i: nat)
    requires HistoryOk(s) && Enabled(l, s, Record(i))
    ensures HistoryOk(ApplyRecord(l, s, i)) && ApplyRecord(l, s, i).recorded[..|s.recorded|] == s.recorded
  {
    var s' := ApplyRecord(l, s, i);
    assert !WasRecorded(s, i);
    forall j: nat ensures j in s'.recorded <==> WasRecorded(s', j) {
      assert j in s'.recorded <==> j in s.recorded || j == i;
      assert j != i ==> (WasRecorded(s', j) <==> WasRecorded(s, j));
    }
  }

  /** One more record. */
  lemma OneMore(l: Loop, recorded: seq<nat>, i: nat)
    ensures FirstFailure(l, recorded + [i]) ==
      match (FirstFailure(l, recorded), l.outcome(i))
      case (None, Failure(e)) => Some(e)
      case (first, _) => first
    ensures LastSuccess(l, recorded + [i]) ==
      match (FirstFailure(l, recorded), l.outcome(i))
      case (None, Success(m)) => Some(m)
      case _ => LastSuccess(l, recorded)
  {
    assert (recorded + [i])[..|recorded|] == recorded;
  }

  lemma RecordResult(l: Loop, s: Sys, i: nat)
    requires ResultOk(l, s) && Enabled(l, s, Record(i))
    ensures ResultOk(l, ApplyRecord(l, s, i))
  {
    OneMore(l, s.recorded, i);
    RecordSummary(l, s, i);
  }

  lemma RecordSummary(l: Loop, s: Sys, i: nat)
    requires Enabled(l, s, Record(i))
    requires (s.summary.Some? ==> exists j :: j in s.recorded && l.outcome(j) == Success(s.summary.value))
    ensures var s' := ApplyRecord(l, s, i);
      s'.summary.Some? ==> exists j :: j in s'.recorded && l.outcome(j) == Success(s'.summary.value)
  {
    assert i in s.recorded + [i] && forall j :: j in s.recorded ==> j in s.recorded + [i];
  }

  lemma RecordReturn(l: Loop, s: Sys, i: nat)
    requires ReturnOk(s) && Enabled(l, s, Record(i))
    ensures ReturnOk(ApplyRecord(l, s, i))
  {
  }

  lemma RecordInv(l: Loop, s: Sys, i: nat)
    requires Inv(l, s) && Enabled(l, s, Record(i))
    ensures Inv(l, ApplyRecord(l, s, i))
  {
    RecordPlaces(l, s, i);
    RecordHistory(l, s, i);
    RecordResult(l, s, i);
    RecordReturn(l, s, i);
  }

  lemma MovePlaces(l: Loop, s: Sys, step: Step)
    requires PlacesOk(l, s) && Enabled(l, s, step) && (step.Begin? || step.Finish? || step.Release?)
    ensures PlacesOk(l, Apply(l, s, step))
  {
    var s' := Apply(l, s, step);
    ActiveAfter(s, step.i, s'.iterations[step.i]);
    SameActive(To(s, step.i, s'.iterations[step.i]), s');
  }

  lemma SameRecorded(s: Sys, s': Sys, i: nat)
    requires HistoryOk(s) && i < |s.iterations| && s'.recorded == s.recorded
    requires |s'.iterations| == |s.iterations| && s'.iterations == s.iterations[i := s'.iterations[i]]
    requires s'.iterations[i].Recorded() <==> s.iterations[i].Recorded()
    ensures HistoryOk(s')
  {
  }

  lemma MoveInv(l: Loop, s: Sys, step: Step)
    requires Inv(l, s) && Enabled(l, s, step) && (step.Begin? || step.Finish? || step.Release?)
    ensures Inv(l, Apply(l, s, step))
  {
    MovePlaces(l, s, step);
    SameRecorded(s, Apply(l, s, step), step.i);
    assert IsActive(s, step.i);
  }

  lemma LaunchPlaces(l: Loop, s: Sys)
    requires PlacesOk(l, s) && Enabled(l, s, Launch)
    ensures PlacesOk(l, Apply(l, s, Launch))
  {
    ActiveAfter(s, s.next, Launched);
    SameActive(To(s, s.next, Launched), Apply(l, s, Launch));
  }

  lemma LaunchInv(l: Loop, s: Sys)
    requires Inv(l, s) && Enabled(l, s, Launch)
    ensures Inv(l, Apply(l, s, Launch))
  {
    LaunchPlaces(l, s);
    SameRecorded(s, Apply(l, s, Launch), s.next);
  }

  lemma StepInv(l: Loop, s: Sys, step: Step)
    requires Inv(l, s) && Enabled(l, s, step)
    ensures Inv(l, Apply(l, s, step))
  {
    match step
    case Launch => LaunchInv(l, s);
    case Record(i) => RecordInv(l, s, i);
    case Begin(_) => MoveInv(l, s, step);
    case Finish(_) => MoveInv(l, s, step);
    case Release(_) => MoveInv(l, s, step);
    case _ =>
      SameActive(s, Apply(l, s, step));
      forall i: nat ensures WasRecorded(Apply(l, s, step), i) <==> WasRecorded(s, i) {}
  }

  lemma {:induction false} RunInv(l: Loop, s: Sys, run: seq<Step>)
    requires Inv(l, s) && IsRun(l, s, run)
    ensures Inv(l, After(l, s, run))
    decreases |run|
  {
    if run != [] {
      StepInv(l, s, run[0]);
      RunInv(l, Apply(l, s, run[0]), run[1..]);
    }
  }

  // ---- What holds of every run ----

  /** At every moment of every run the iterations in flight hold the places taken, at most the parallelism. */
  lemma ParallelismIsKept(l: Loop, run: seq<Step>)
    requires IsRun(l, Start(l), run)
    ensures var s := After(l, Start(l), run); s.places == |ActiveOnes(s)| <= l.parallelism
  {
    StartInv(l);
    RunInv(l, Start(l), run);
  }

  /** The iterations that were launched, and of these those that ran. */
  predicate WasLaunched(s: Sys, i: nat) {
    i < |s.iterations| && !s.iterations[i].NotLaunched?
  }

  predicate WasPassedOver(s: Sys, i: nat) {
    i < |s.iterations| && s.iterations[i] == Gone(false)
  }

  /**
   What a loop that has returned has done, whether its context ended or not. Iterations are launched
   from the first on; each of these either ran, once, and was recorded, or was passed over, which
   happens only once the context has ended. The launcher breaks off only then, and then there is an
   error: the context's own, or that of the first failure. Otherwise the error is that of the first
   failure, if there is one; skipped iterations are no failure. A summary is that of an iteration that
   succeeded.
   */
  lemma LoopResult(l: Loop, run: seq<Step>)
    requires IsRun(l, Start(l), run) && After(l, Start(l), run).launcher.Returned?
    ensures var s := After(l, Start(l), run);
      && NoDup(s.recorded) && |s.iterations| == l.items && s.next <= l.items
      && (forall i: nat :: i < l.items ==> (WasLaunched(s, i) <==> i < s.next))
      && (forall i: nat :: WasLaunched(s, i) <==> i in s.recorded || WasPassedOver(s, i))
      && (forall i: nat :: !(i in s.recorded && WasPassedOver(s, i)))
      && (s.next < l.items || (exists i :: WasPassedOver(s, i)) ==> s.cancelled)
      && (s.next < l.items ==> s.err == Some(ContextDone) || (s.err.Some? && s.err == ErrorOf(l, s.recorded)))
      && (s.next == l.items ==> s.err == ErrorOf(l, s.recorded) && s.summary == LastSuccess(l, s.recorded))
      && (s.summary.Some? ==> exists i :: i in s.recorded && l.outcome(i) == Success(s.summary.value))
  {
    StartInv(l);
    RunInv(l, Start(l), run);
    var s := After(l, Start(l), run);
    forall i: nat
      ensures WasLaunched(s, i) <==> i in s.recorded || WasPassedOver(s, i)
      ensures !(i in s.recorded && WasPassedOver(s, i))
    {
      assert i in s.recorded <==> WasRecorded(s, i);
    }
  }

  /** No error is reported exactly if every item was launched and no recorded one failed. */
  lemma NoErrorMeans(l: Loop, run: seq<Step>)
    requires IsRun(l, Start(l), run) && After(l, Start(l), run).launcher.Returned?
    ensures var s := After(l, Start(l), run);
      s.err == None <==> s.next == l.items && forall i :: i in s.recorded ==> !l.outcome(i).Failure?
  {
    LoopResult(l, run);
    FirstFailureMeans(l, After(l, Start(l), run).recorded);
  }

  /**
   A loop that returns no error hides items that did not run exactly if some item was passed over: then
   all items had been launched before the context ended, but not all had begun.
   */
  lemma HiddenItems(l: Loop, run: seq<Step>)
    requires IsRun(l, Start(l), run) && After(l, Start(l), run).launcher.Returned?
    requires After(l, Start(l), run).err == None
    ensures var s := After(l, Start(l), run);
      && ((exists i: nat :: i < l.items && i !in s.recorded) <==> exists i: nat :: WasPassedOver(s, i))
      && ((exists i: nat :: i < l.items && i !in s.recorded) ==> s.cancelled)
  {
    LoopResult(l, run);
    NoErrorMeans(l, run);
    var s := After(l, Start(l), run);
    if i: nat :| i < l.items && i !in s.recorded { assert WasLaunched(s, i) && WasPassedOver(s, i); }
    if i: nat :| WasPassedOver(s, i) { assert i < l.items && WasLaunched(s, i); }
  }

  /** Without its context ending the loop runs every item once, and its error tells whether one failed. */
  lemma UninterruptedLoop(l: Loop, run: seq<Step>)
    requires IsRun(l, Start(l), run) && After(l, Start(l), run).launcher.Returned? && !After(l, Start(l), run).cancelled
    ensures var s := After(l, Start(l), run);
      && (forall i: nat :: i in s.recorded <==> i < l.items)
      && (s.err == None <==> forall i: nat :: i < l.items ==> !l.outcome(i).Failure?)
      && (s.err == None ==> (s.summary == None <==> forall i: nat :: i < l.items ==> l.outcome(i).SkippedError?))
  {
    LoopResult(l, run);
    NoErrorMeans(l, run);
    var s := After(l, Start(l), run);
    forall i: nat ensures i in s.recorded <==> i < l.items {
      if i < l.items { assert WasLaunched(s, i) && !WasPassedOver(s, i); }
      assert i in s.recorded ==> WasLaunched(s, i);
    }
    if s.err == None {
      FirstFailureMeans(l, s.recorded);
      LastSuccessMeans(l, s.recorded);
    }
  }

  // ---- A loop that reports success without having run anything ----

  lemma {:induction false} RunOn(l: Loop, s: Sys, run: seq<Step>, more: seq<Step>)
    requires IsRun(l, s, run) && IsRun(l, After(l, s, run), more)
    ensures IsRun(l, s, run + more) && After(l, s, run + more) == After(l, After(l, s, run), more)
    decreases |run|
  {
    if run == [] {
      assert run + more == more;
    } else {
      assert (run + more)[0] == run[0] && (run + more)[1..] == run[1..] + more;
      RunOn(l, Apply(l, s, run[0]), run[1..], more);
    }
  }

  /** The context has ended; the first n items were launched and passed over. */
  ghost predicate PassedOver(l: Loop, s: Sys, n: nat) {
    && n <= l.items == |s.iterations| && s.launcher.Launching? && s.next == n && s.places == 0 && s.cancelled
    && s.err == None && s.summary == None && s.recorded == []
    && forall i: nat :: i < l.items ==> s.iterations[i] == if i < n then Gone(false) else NotLaunched
  }

  lemma PassOne(l: Loop, s: Sys, n: nat) returns (run: seq<Step>)
    requires PassedOver(l, s, n) && n < l.items && l.parallelism >= 1
    ensures IsRun(l, s, run) && PassedOver(l, After(l, s, run), n + 1)
  {
    run := [Launch, Begin(n), Release(n)];
    var s1 := Apply(l, s, Launch);
    var s2 := Apply(l, s1, Begin(n));
    var s3 := Apply(l, s2, Release(n));
    assert run[1..] == [Begin(n), Release(n)] && run[1..][1..] == [Release(n)] && run[1..][1..][1..] == [];
    assert IsRun(l, s3, []) && IsRun(l, s2, run[1..][1..]) && IsRun(l, s1, run[1..]);
    assert run[1..][0] == Begin(n) && run[1..][1..][0] == Release(n);
    assert After(l, s2, run[1..][1..]) == s3;
    assert After(l, s1, run[1..]) == After(l, s2, run[1..][1..]);
  }

  lemma {:induction false} PassAll(l: Loop, n: nat) returns (run: seq<Step>)
    requires l.parallelism >= 1 && n <= l.items
    ensures IsRun(l, Start(l), run) && PassedOver(l, After(l, Start(l), run), n)
  {
    if n == 0 {
      run := [Cancel];
      assert run[1..] == [] && IsRun(l, Apply(l, Start(l), Cancel), []);
    } else {
      var before := PassAll(l, n - 1);
      var more := PassOne(l, After(l, Start(l), before), n - 1);
      RunOn(l, Start(l), before, more);
      run := before + more;
    }
  }

  /** Every loop, whatever its items would do, can return without an error and without having run any of them. */
  lemma NothingRunNoError(l: Loop) returns (run: seq<Step>)
    requires l.parallelism >= 1
    ensures IsRun(l, Start(l), run)
    ensures var s := After(l, Start(l), run); s.launcher.Returned? && s.err == None && s.recorded == []
  {
    var before := PassAll(l, l.items);
    var s := After(l, Start(l), before);
    var more := [AllLaunched, Return];
    var s1 := Apply(l, s, AllLaunched);
    assert more[1..] == [Return] && more[1..][1..] == [];
    assert IsRun(l, Apply(l, s1, Return), []) && IsRun(l, s1, more[1..]) && IsRun(l, s, more);
    assert After(l, s1, more[1..]) == Apply(l, s1, Return);
    RunOn(l, Start(l), before, more);
    run := before + more;
  }

  /** With at least one place the loop never gets stuck before it has returned. */
  lemma NeverStuck(l: Loop, s: Sys) returns (step: Step)
    requires Inv(l, s) && l.parallelism > 0 && !s.launcher.Returned?
    ensures Enabled(l, s, step) && !step.Cancel?
  {
    if a: nat :| a < |s.iterations| && s.iterations[a].Active() {
      assert IsActive(s, a) && a in ActiveOnes(s);
      step := if s.iterations[a].Launched? then Begin(a) else if s.iterations[a].Executing? then Finish(a)
              else if s.iterations[a].Recording? then Record(a) else Release(a);
    } else if s.launcher.Waiting? {
      step := Return;
    } else {
      assert ActiveOnes(s) == {};
      step := if s.next < |s.iterations| then Launch else AllLaunched;
    }
  }
}
