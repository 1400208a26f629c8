/** The whole join: for every interleaving of its build readers it computes the relational join of its inputs. */
module Join {
  import opened Prelude
  import opened JoinRows
  import opened JoinTable
  import opened JoinMerge
  import opened JoinExec
  import Build = JoinBuild

  /** The build phase b reads the build streams of ins, in the order of the configuration. */
  ghost predicate Reads(b: Build.Build, ins: Inputs) {
    && ValidInputs(b.cfg, ins) && |b.streams| == |b.cfg.buildNames|
    && forall i :: 0 <= i < |b.streams| ==>
         b.cfg.buildNames[i] in ins.builds && b.streams[i] == ins.builds[b.cfg.buildNames[i]]
  }

  lemma SelectSnoc(ms: seq<Build.BuildRecord>, m: Build.BuildRecord, i: nat, k: Key)
    ensures Select(ms + [m], i, k) == Select(ms, i, k) + if m.stream == i && m.key == k then [m.rec] else []
  {
  }

  lemma {:induction false} SelectOfStream(ms: seq<Build.BuildRecord>, i: nat, k: Key)
    ensures Select(ms, i, k) == Select(Build.OfStream(ms, i), i, k)
  {
    if ms != [] {
      var init, last := ms[..|ms| - 1], ms[|ms| - 1];
      SelectOfStream(init, i, k);
      SelectSnoc(Build.OfStream(init, i), last, i, k);
      assert Build.OfStream(init, i) + [] == Build.OfStream(init, i);
    }
  }

  lemma {:induction false} SelectKeyed(b: Build.Build, i: nat, rs: seq<Rec>, k: Key)
    requires i < |b.cfg.buildNames|
    ensures Select(Build.Keyed(b, i, rs), i, k) == WithKey(b.cfg, b.cfg.buildNames[i], rs, k)
  {
    if rs != [] {
      var init, last := rs[..|rs| - 1], rs[|rs| - 1];
      SelectKeyed(b, i, init, k);
      if b.KeyOf(i, last).Some? {
        SelectSnoc(Build.Keyed(b, i, init), Build.BuildRecord(i, last, b.KeyOf(i, last).value), i, k);
      }
    }
  }

  lemma {:induction false} SelectFinds(ms: seq<Build.BuildRecord>, i: nat, k: Key)
    ensures Select(ms, i, k) != [] <==> exists m :: m in ms && m.stream == i && m.key == k
  {
    if ms != [] {
      assert ms == ms[..|ms| - 1] + [ms[|ms| - 1]];
      SelectFinds(ms[..|ms| - 1], i, k);
    }
  }

  lemma SelectIsMatching(b: Build.Build, ins: Inputs, taken: seq<Build.BuildRecord>, i: nat, k: Key)
    requires Reads(b, ins) && i < |b.streams| && Build.OfStream(taken, i) == Build.Keyed(b, i, b.streams[i])
    ensures Select(taken, i, k) == Matching(b.cfg, ins, b.cfg.buildNames[i], k)
  {
    SelectOfStream(taken, i, k);
    SelectKeyed(b, i, b.streams[i], k);
  }

  lemma GroupIsGroup(b: Build.Build, ins: Inputs, taken: seq<Build.BuildRecord>, t: Table, k: Key)
    requires |b.streams| == |b.cfg.buildNames| && Grouped(b.cfg.buildNames, taken, t) && k in t
    requires forall i :: 0 <= i < |b.streams| ==> Select(taken, i, k) == Matching(b.cfg, ins, b.cfg.buildNames[i], k)
    ensures IsGroup(b.cfg, ins, t[k], k)
  {
  }

  /** Grouping what a finished build phase delivered gives the table of the build streams. */
  lemma DeliveredIsTable(b: Build.Build, ins: Inputs, taken: seq<Build.BuildRecord>, t: Table)
    requires Reads(b, ins) && Grouped(b.cfg.buildNames, taken, t)
    requires forall i :: 0 <= i < |b.streams| ==> Build.OfStream(taken, i) == Build.Keyed(b, i, b.streams[i])
    requires forall m :: m in taken ==> m.stream < |b.streams|
    ensures IsTable(b.cfg, ins, t)
  {
    forall k ensures (k in t <==> KeyIsBuilt(b.cfg, ins, k)) && (k in t ==> IsGroup(b.cfg, ins, t[k], k)) {
      forall i | 0 <= i < |b.streams| ensures Select(taken, i, k) == Matching(b.cfg, ins, b.cfg.buildNames[i], k) {
        SelectIsMatching(b, ins, taken, i, k);
      }
      KeysOfTable(b, ins, taken, t, k);
      if k in t { GroupIsGroup(b, ins, taken, t, k); }
    }
  }

  lemma KeysOfTable(b: Build.Build, ins: Inputs, taken: seq<Build.BuildRecord>, t: Table, k: Key)
    requires Reads(b, ins) && Grouped(b.cfg.buildNames, taken, t) && forall m :: m in taken ==> m.stream < |b.streams|
    requires forall i :: 0 <= i < |b.streams| ==> Select(taken, i, k) == Matching(b.cfg, ins, b.cfg.buildNames[i], k)
    ensures k in t <==> KeyIsBuilt(b.cfg, ins, k)
  {
    var names := b.cfg.buildNames;
    if k in t {
      var m :| m in taken && m.key == k;
      SelectFinds(taken, m.stream, k);
      assert names[m.stream] in names;
    }
    if KeyIsBuilt(b.cfg, ins, k) {
      var n :| n in names && Matching(b.cfg, ins, n, k) != [];
      var i :| 0 <= i < |names| && names[i] == n;
      SelectFinds(taken, i, k);
    }
  }

  ghost predicate IsFinishedRun(b: Build.Build, run: seq<Build.Step>) {
    b.Valid() && Build.IsRun(b, Build.Start(b), run) && Build.Finished(Build.After(b, Build.Start(b), run))
  }

  /** The table that a finished run without an error gives. */
  lemma RunGivesTable(b: Build.Build, ins: Inputs, run: seq<Build.Step>, t: Table)
    requires Reads(b, ins) && IsFinishedRun(b, run) && !Build.After(b, Build.Start(b), run).err
    requires Grouped(b.cfg.buildNames, Build.After(b, Build.Start(b), run).taken, t)
    ensures IsTable(b.cfg, ins, t)
  {
    Build.BuildPhaseExact(b, run);
    DeliveredStreams(b, run);
    DeliveredIsTable(b, ins, Build.After(b, Build.Start(b), run).taken, t);
  }

  /**
   Of two finished runs of the build phase both fail or neither does; if neither does, what they
   delivered groups into the same table: the same keys, and under each the same records of each stream
   in the same order.
   */
  lemma TableIsTheSame(b: Build.Build, ins: Inputs, run: seq<Build.Step>, run': seq<Build.Step>, t: Table, t': Table)
    requires Reads(b, ins) && IsFinishedRun(b, run) && IsFinishedRun(b, run')
    requires Grouped(b.cfg.buildNames, Build.After(b, Build.Start(b), run).taken, t)
    requires Grouped(b.cfg.buildNames, Build.After(b, Build.Start(b), run').taken, t')
    ensures Build.After(b, Build.Start(b), run).err == Build.After(b, Build.Start(b), run').err
    ensures !Build.After(b, Build.Start(b), run).err ==>
      t.Keys == t'.Keys && forall k, n :: k in t && n in b.cfg.buildNames ==> InGroup(t[k], n) == InGroup(t'[k], n)
  {
    Build.BuildPhaseExact(b, run);
    Build.BuildPhaseExact(b, run');
    if !Build.After(b, Build.Start(b), run).err {
      RunGivesTable(b, ins, run, t);
      RunGivesTable(b, ins, run', t');
      SameTables(b.cfg, ins, t, t');
    }
  }

  lemma SameTables(cfg: Config, ins: Inputs, t: Table, t': Table)
    requires IsTable(cfg, ins, t) && IsTable(cfg, ins, t')
    ensures t.Keys == t'.Keys
    ensures forall k, n :: k in t && n in cfg.buildNames ==> InGroup(t[k], n) == InGroup(t'[k], n)
  {
  }

  datatype Summary = Summary(recordsJoined: nat, probeRecords: nat, buildRecords: nat, skippedKeyErrors: nat)

  /** The error for too many build records, waiting for ever to report a key error, or the summary. */
  datatype Result = TooManyRecords | WaitsForEver | Done(summary: Summary)

  /** All records without a key, in the build streams and in the probe stream. */
  function AllKeyErrors(b: Build.Build, ins: Inputs): nat
    requires b.Valid()
  {
    Sum(Build.KeyErrors(b)) + Unkeyed(b.cfg, ins.probe)
  }

  /**
   The module's work for one finished run of the build phase. It fails exactly if there are too many
   build records. Otherwise it waits for ever exactly if the error channel has no room for all key
   errors, and if it has, sends the joined record of every row of the relational join, once each.
   */
  method Perform(strategy: Strategy, b: Build.Build, ghost run: seq<Build.Step>, s: Build.Sys, ins: Inputs)
    returns (sent: seq<Joined>, result: Result, ghost rows: seq<Combo>)
    requires Reads(b, ins) && Build.IsRun(b, Build.Start(b), run)
    requires s == Build.After(b, Build.Start(b), run) && Build.Finished(s)
    ensures result == TooManyRecords <==> b.limit > 0 && Sum(Build.Lengths(b)) > b.limit
    ensures result == TooManyRecords ==> sent == []
    ensures result != TooManyRecords ==> (result == WaitsForEver <==> AllKeyErrors(b, ins) > b.errorRoom)
    ensures result.Done? ==>
      && NoDup(rows) && (forall c :: c in rows <==> IsRow(b.cfg, ins, c)) && Sends(strategy, rows, sent)
      && result.summary == Summary(|rows|, |ins.probe|, Sum(Build.Lengths(b)), AllKeyErrors(b, ins))
  {
    Build.BuildPhaseExact(b, run);
    DeliveredStreams(b, run);
    rows := [];
    if s.err {
      return [], TooManyRecords, rows;
    }
    var bm := CollectBuildMap(b.cfg.buildNames, s.taken);
    ghost var t := TableOf(bm);
    DeliveredIsTable(b, ins, s.taken, t);
    RoomLeft(b, run);
    var room := b.errorRoom - s.reported;
    var early, processed, joined, skipped, waits := RunProbePhase(b.cfg, strategy, bm, ins.probe, room);
    if waits {
      return early, WaitsForEver, rows;
    }
    var late, joinedLate;
    ghost var ks;
    late, joinedLate, ks := RunPostProbePhase(b.cfg, strategy, bm, ProbedKeys(b.cfg, ins.probe));
    HashJoinIsRelationalJoin(b.cfg, ins, t, ks);
    rows := ProbeRows(b.cfg, t, ins.probe) + PostRows(b.cfg, t, ks);
    SendsBoth(strategy, ProbeRows(b.cfg, t, ins.probe), early, PostRows(b.cfg, t, ks), late);
    sent := early + late;
    result := Done(Summary(joined + joinedLate, processed, s.total, s.skipped + skipped));
  }

  lemma RoomLeft(b: Build.Build, run: seq<Build.Step>)
    requires b.Valid() && Build.IsRun(b, Build.Start(b), run)
    ensures Build.After(b, Build.Start(b), run).reported <= b.errorRoom
  {
    Build.StartInv(b);
    Build.RunInv(b, Build.Start(b), run);
  }

  lemma DeliveredStreams(b: Build.Build, run: seq<Build.Step>)
    requires b.Valid() && Build.IsRun(b, Build.Start(b), run)
    ensures var s := Build.After(b, Build.Start(b), run);
      !s.err && Build.Finished(s) ==> forall m :: m in s.taken ==> m.stream < |b.streams|
  {
    Build.StartInv(b);
    Build.RunInv(b, Build.Start(b), run);
  }
}
