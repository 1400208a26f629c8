/** The hash join on values: one table lookup per probe record computes the relational join. */
module JoinTable {
  import opened Prelude
  import opened JoinRows

  type Table = map<Key, Group>

  /** The group g holds the build records of key k. */
  ghost predicate IsGroup(cfg: Config, ins: Inputs, g: Group, k: Key) {
    forall n :: n in cfg.buildNames ==> InGroup(g, n) == Matching(cfg, ins, n, k)
  }

  /** The table groups the build records by key and stream, each group in stream order. */
  ghost predicate IsTable(cfg: Config, ins: Inputs, t: Table) {
    && (forall k :: k in t <==> KeyIsBuilt(cfg, ins, k))
    && forall k :: k in t ==> IsGroup(cfg, ins, t[k], k)
  }

  predicate KeepsUnmatchedProbe(cfg: Config) {
    cfg.joinType.Left? || cfg.joinType.Outer?
  }

  predicate KeepsUnmatchedBuild(cfg: Config) {
    cfg.joinType.Right? || cfg.joinType.Outer?
  }

  /** The combinations of one probe record. */
  ghost function ProbeCombos(cfg: Config, t: Table, p: Rec): seq<Combo> {
    match cfg.key(cfg.probeName, p)
    case None => []
    case Some(k) =>
      if k in t then Combinations(cfg, Some(p), t[k])
      else if KeepsUnmatchedProbe(cfg) then Combinations(cfg, Some(p), map[])
      else []
  }

  ghost function ProbeRows(cfg: Config, t: Table, ps: seq<Rec>): seq<Combo> {
    if ps == [] then [] else ProbeRows(cfg, t, ps[..|ps| - 1]) + ProbeCombos(cfg, t, ps[|ps| - 1])
  }

  ghost function PostRows(cfg: Config, t: Table, ks: seq<Key>): seq<Combo>
    requires forall k :: k in ks ==> k in t
  {
    if ks == [] then [] else PostRows(cfg, t, ks[..|ks| - 1]) + Combinations(cfg, None, t[ks[|ks| - 1]])
  }

  function ProbedKeys(cfg: Config, ps: seq<Rec>): set<Key> {
    set p | p in ps && cfg.key(cfg.probeName, p).Some? :: cfg.key(cfg.probeName, p).value
  }

  lemma {:induction false} MatchingMeans(cfg: Config, name: string, s: seq<Rec>, k: Key)
    ensures forall r :: r in WithKey(cfg, name, s, k) <==> r in s && cfg.key(name, r) == Some(k)
    ensures NoDup(s) ==> NoDup(WithKey(cfg, name, s, k))
  {
    if s != [] {
      var init, last := s[..|s| - 1], s[|s| - 1];
      assert s == init + [last];
      MatchingMeans(cfg, name, init, k);
    }
  }

  lemma OptionsMeans(rs: seq<Rec>, o: Option<Rec>)
    ensures o in Options(rs) <==> IsChoiceOf(o, rs)
  {
  }

  /** c has the probe record given and covers the key k. */
  ghost predicate IsComboOf(cfg: Config, ins: Inputs, probe: Option<Rec>, k: Key, c: Combo) {
    && c.Keys == Start(cfg, probe).Keys + Elements(cfg.buildNames)
    && (probe.Some? ==> c[cfg.probeName] == probe)
    && Covers(cfg, ins, c, k)
  }

  lemma ChoicesCover(cfg: Config, ins: Inputs, probe: Option<Rec>, g: Group, k: Key, c: Combo)
    requires cfg.Valid() && IsGroup(cfg, ins, g, k)
    ensures IsChoice(Start(cfg, probe), cfg.buildNames, g, c) <==> IsComboOf(cfg, ins, probe, k, c)
  {
    forall n | n in cfg.buildNames && n in c
      ensures c[n] in Options(InGroup(g, n)) <==> IsChoiceOf(c[n], Matching(cfg, ins, n, k))
    {
      OptionsMeans(InGroup(g, n), c[n]);
    }
    assert forall n :: n in Elements(cfg.buildNames) <==> n in cfg.buildNames;
  }

  lemma InnerNeedsAll(cfg: Config, ins: Inputs, g: Group, k: Key, c: Combo)
    requires IsGroup(cfg, ins, g, k) && Covers(cfg, ins, c, k)
    ensures NoNils(cfg, c) <==> AllPresent(cfg, g)
  {
  }

  /** The combinations of a group are the rows that cover its key. */
  lemma CombinationsExact(cfg: Config, ins: Inputs, probe: Option<Rec>, g: Group, k: Key, c: Combo)
    requires cfg.Valid() && IsGroup(cfg, ins, g, k)
    ensures c in Combinations(cfg, probe, g) <==>
      IsComboOf(cfg, ins, probe, k, c) && (cfg.joinType.Inner? ==> NoNils(cfg, c))
  {
    ProductMembers(Start(cfg, probe), cfg.buildNames, g, c);
    ChoicesCover(cfg, ins, probe, g, k, c);
    if Covers(cfg, ins, c, k) { InnerNeedsAll(cfg, ins, g, k, c); }
  }

  /** Each of them comes once. */
  lemma CombinationsNoDup(cfg: Config, ins: Inputs, probe: Option<Rec>, g: Group, k: Key)
    requires ValidInputs(cfg, ins) && IsGroup(cfg, ins, g, k)
    ensures NoDup(Combinations(cfg, probe, g))
  {
    forall n | n in cfg.buildNames ensures NoDup(InGroup(g, n)) { MatchingMeans(cfg, n, ins.builds[n], k); }
    ProductNoDup(Start(cfg, probe), cfg.buildNames, g);
  }

  lemma EmptyGroup(cfg: Config, ins: Inputs, t: Table, k: Key)
    requires IsTable(cfg, ins, t) && k !in t
    ensures IsGroup(cfg, ins, map[], k)
  {
  }

  ghost predicate ProbeRowFor(cfg: Config, ins: Inputs, c: Combo, p: Rec, k: Key) {
    && IsComboOf(cfg, ins, Some(p), k, c) && (KeyIsBuilt(cfg, ins, k) || KeepsUnmatchedProbe(cfg))
    && (cfg.joinType.Inner? ==> NoNils(cfg, c))
  }

  lemma ProbeCombosOfKey(cfg: Config, ins: Inputs, t: Table, p: Rec, k: Key, c: Combo)
    requires cfg.Valid() && IsTable(cfg, ins, t) && cfg.key(cfg.probeName, p) == Some(k)
    ensures c in ProbeCombos(cfg, t, p) <==> ProbeRowFor(cfg, ins, c, p, k)
  {
    if k in t {
      CombinationsExact(cfg, ins, Some(p), t[k], k, c);
    } else {
      EmptyGroup(cfg, ins, t, k);
      CombinationsExact(cfg, ins, Some(p), map[], k, c);
    }
  }

  lemma ProbeCombosExact(cfg: Config, ins: Inputs, t: Table, p: Rec, c: Combo)
    requires cfg.Valid() && IsTable(cfg, ins, t) && p in ins.probe
    ensures c in ProbeCombos(cfg, t, p) <==> IsProbeRow(cfg, ins, c, p)
  {
    if cfg.key(cfg.probeName, p).Some? {
      ProbeCombosOfKey(cfg, ins, t, p, cfg.key(cfg.probeName, p).value, c);
    }
  }

  lemma ProbeCombosNoDup(cfg: Config, ins: Inputs, t: Table, p: Rec)
    requires ValidInputs(cfg, ins) && IsTable(cfg, ins, t)
    ensures NoDup(ProbeCombos(cfg, t, p))
  {
    if cfg.key(cfg.probeName, p).Some? {
      var k := cfg.key(cfg.probeName, p).value;
      if k in t {
        CombinationsNoDup(cfg, ins, Some(p), t[k], k);
      } else {
        EmptyGroup(cfg, ins, t, k);
        CombinationsNoDup(cfg, ins, Some(p), map[], k);
      }
    }
  }

  lemma {:induction false} ProbeRowsExact(cfg: Config, ins: Inputs, t: Table, ps: seq<Rec>, c: Combo)
    requires cfg.Valid() && IsTable(cfg, ins, t) && forall p :: p in ps ==> p in ins.probe
    ensures c in ProbeRows(cfg, t, ps) <==> exists p :: p in ps && IsProbeRow(cfg, ins, c, p)
  {
    if ps != [] {
      var init, last := ps[..|ps| - 1], ps[|ps| - 1];
      assert ps == init + [last];
      ProbeRowsExact(cfg, ins, t, init, c);
      ProbeCombosExact(cfg, ins, t, last, c);
    }
  }

  lemma {:induction false} ProbeRowsNoDup(cfg: Config, ins: Inputs, t: Table, ps: seq<Rec>)
    requires ValidInputs(cfg, ins) && IsTable(cfg, ins, t) && NoDup(ps) && forall p :: p in ps ==> p in ins.probe
    ensures NoDup(ProbeRows(cfg, t, ps))
  {
    if ps != [] {
      var init, last := ps[..|ps| - 1], ps[|ps| - 1];
      assert ps == init + [last];
      ProbeRowsNoDup(cfg, ins, t, init);
      ProbeCombosNoDup(cfg, ins, t, last);
      forall c | c in ProbeRows(cfg, t, init) ensures c !in ProbeCombos(cfg, t, last) {
        ProbeRowsExact(cfg, ins, t, init, c);
        ProbeCombosExact(cfg, ins, t, last, c);
      }
      NoDupAppend(ProbeRows(cfg, t, init), ProbeCombos(cfg, t, last));
    }
  }

  /** A row of build records belongs to one key. */
  lemma OneKey(cfg: Config, ins: Inputs, c: Combo, k: Key, k': Key)
    requires ValidInputs(cfg, ins) && IsBuildRow(cfg, ins, c, k) && IsBuildRow(cfg, ins, c, k')
    ensures k == k'
  {
    var n :| n in cfg.buildNames && Matching(cfg, ins, n, k) != [];
    MatchingMeans(cfg, n, ins.builds[n], k);
    MatchingMeans(cfg, n, ins.builds[n], k');
  }

  lemma BuildRowIsCombo(cfg: Config, ins: Inputs, k: Key, c: Combo)
    requires KeepsUnmatchedBuild(cfg) && KeyIsBuilt(cfg, ins, k) && !KeyIsProbed(cfg, ins, k)
    ensures IsBuildRow(cfg, ins, c, k) <==> IsComboOf(cfg, ins, None, k, c)
  {
  }

  lemma PostCombosExact(cfg: Config, ins: Inputs, t: Table, k: Key, c: Combo)
    requires cfg.Valid() && IsTable(cfg, ins, t) && KeepsUnmatchedBuild(cfg) && k in t && !KeyIsProbed(cfg, ins, k)
    ensures c in Combinations(cfg, None, t[k]) <==> IsBuildRow(cfg, ins, c, k)
  {
    CombinationsExact(cfg, ins, None, t[k], k, c);
    BuildRowIsCombo(cfg, ins, k, c);
  }

  /** c combines the build records of one of the keys. */
  ghost predicate IsBuildRowOf(cfg: Config, ins: Inputs, c: Combo, ks: seq<Key>) {
    exists k :: k in ks && IsBuildRow(cfg, ins, c, k)
  }

  lemma BuildRowSnoc(cfg: Config, ins: Inputs, c: Combo, ks: seq<Key>, k: Key)
    ensures IsBuildRowOf(cfg, ins, c, ks + [k]) <==> IsBuildRowOf(cfg, ins, c, ks) || IsBuildRow(cfg, ins, c, k)
  {
  }

  lemma {:induction false} PostRowsExact(cfg: Config, ins: Inputs, t: Table, ks: seq<Key>, c: Combo)
    requires cfg.Valid() && IsTable(cfg, ins, t) && KeepsUnmatchedBuild(cfg)
    requires forall k :: k in ks ==> k in t && !KeyIsProbed(cfg, ins, k)
    ensures c in PostRows(cfg, t, ks) <==> IsBuildRowOf(cfg, ins, c, ks)
  {
    if ks != [] {
      var init, last := ks[..|ks| - 1], ks[|ks| - 1];
      assert ks == init + [last];
      PostRowsExact(cfg, ins, t, init, c);
      PostCombosExact(cfg, ins, t, last, c);
      BuildRowSnoc(cfg, ins, c, init, last);
    }
  }

  lemma {:induction false} PostRowsNoDup(cfg: Config, ins: Inputs, t: Table, ks: seq<Key>)
    requires ValidInputs(cfg, ins) && IsTable(cfg, ins, t) && NoDup(ks) && KeepsUnmatchedBuild(cfg)
    requires forall k :: k in ks ==> k in t && !KeyIsProbed(cfg, ins, k)
    ensures NoDup(PostRows(cfg, t, ks))
  {
    if ks != [] {
      var init, last := ks[..|ks| - 1], ks[|ks| - 1];
      assert ks == init + [last];
      PostRowsNoDup(cfg, ins, t, init);
      CombinationsNoDup(cfg, ins, None, t[last], last);
      forall c | c in PostRows(cfg, t, init) ensures c !in Combinations(cfg, None, t[last]) {
        PostRowsExact(cfg, ins, t, init, c);
        PostCombosExact(cfg, ins, t, last, c);
        var k :| k in init && IsBuildRow(cfg, ins, c, k);
        if IsBuildRow(cfg, ins, c, last) { OneKey(cfg, ins, c, k, last); }
      }
      NoDupAppend(PostRows(cfg, t, init), Combinations(cfg, None, t[last]));
    }
  }

  lemma ProbedKeysMean(cfg: Config, ins: Inputs, k: Key)
    ensures k in ProbedKeys(cfg, ins.probe) <==> KeyIsProbed(cfg, ins, k)
  {
  }

  lemma RowsOfBothPhases(cfg: Config, ins: Inputs, t: Table, ks: seq<Key>, c: Combo)
    requires cfg.Valid() && IsTable(cfg, ins, t)
    requires forall k :: k in ks <==> KeepsUnmatchedBuild(cfg) && k in t && !KeyIsProbed(cfg, ins, k)
    ensures c in ProbeRows(cfg, t, ins.probe) <==> exists p :: IsProbeRow(cfg, ins, c, p)
    ensures c in PostRows(cfg, t, ks) <==> exists k :: IsBuildRow(cfg, ins, c, k)
    ensures c !in ProbeRows(cfg, t, ins.probe) || c !in PostRows(cfg, t, ks)
  {
    ProbeRowsExact(cfg, ins, t, ins.probe, c);
    if KeepsUnmatchedBuild(cfg) { PostRowsExact(cfg, ins, t, ks, c); } else { EmptyOrNot(ks); }
  }

  /**
   The hash join refines the relational join: what the probe phase and the post-probe phase emit, the
   unmatched keys taken in any order, holds every row of the join exactly once and nothing else.
   */
  lemma HashJoinIsRelationalJoin(cfg: Config, ins: Inputs, t: Table, ks: seq<Key>)
    requires ValidInputs(cfg, ins) && IsTable(cfg, ins, t) && NoDup(ks)
    requires Elements(ks) == if KeepsUnmatchedBuild(cfg) then t.Keys - ProbedKeys(cfg, ins.probe) else {}
    ensures forall k :: k in ks ==> k in t
    ensures NoDup(ProbeRows(cfg, t, ins.probe) + PostRows(cfg, t, ks))
    ensures forall c :: c in ProbeRows(cfg, t, ins.probe) + PostRows(cfg, t, ks) <==> IsRow(cfg, ins, c)
  {
    forall k ensures k in ks <==> KeepsUnmatchedBuild(cfg) && k in t && !KeyIsProbed(cfg, ins, k) {
      assert k in ks <==> k in Elements(ks);
      ProbedKeysMean(cfg, ins, k);
    }
    ProbeRowsNoDup(cfg, ins, t, ins.probe);
    if KeepsUnmatchedBuild(cfg) { PostRowsNoDup(cfg, ins, t, ks); } else { EmptyOrNot(ks); }
    forall c
      ensures c in ProbeRows(cfg, t, ins.probe) <==> exists p :: IsProbeRow(cfg, ins, c, p)
      ensures c in PostRows(cfg, t, ks) <==> exists k :: IsBuildRow(cfg, ins, c, k)
      ensures c !in ProbeRows(cfg, t, ins.probe) || c !in PostRows(cfg, t, ks)
    {
      RowsOfBothPhases(cfg, ins, t, ks, c);
    }
    NoDupAppend(ProbeRows(cfg, t, ins.probe), PostRows(cfg, t, ks));
  }
}
