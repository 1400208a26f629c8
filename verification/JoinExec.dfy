/** The join as it executes: entries with a matched flag in a shared build map, and three phases in turn. */
module JoinExec {
  import opened Prelude
  import opened JoinRows
  import opened JoinTable
  import opened JoinMerge
  import Build = JoinBuild

  class BuildEntry {
    const record: Rec
    var matched: bool

    constructor (record: Rec)
      ensures this.record == record && !matched
    {
      this.record := record;
      matched := false;
    }
  }

  type Entries = map<string, seq<BuildEntry>>
  type BuildMap = map<Key, Entries>

  function Records(es: seq<BuildEntry>): seq<Rec> {
    seq(|es|, i requires 0 <= i < |es| => es[i].record)
  }

  function GroupOf(g: Entries): Group {
    map n | n in g :: Records(g[n])
  }

  function TableOf(bm: BuildMap): Table {
    map k | k in bm :: GroupOf(bm[k])
  }

  function EntriesOf(g: Entries): set<BuildEntry> {
    set n, e | n in g && e in g[n] :: e
  }

  type Sets = map<Key, set<BuildEntry>>

  /** The entries filed under each key. */
  function SetsOf(bm: BuildMap): Sets {
    map k | k in bm :: EntriesOf(bm[k])
  }

  function Union(ss: Sets): set<BuildEntry> {
    set k, e | k in ss && e in ss[k] :: e
  }

  /** No entry is filed under two keys, and no key is without entries. */
  ghost predicate Filed(ss: Sets) {
    && (forall k, k', e :: k in ss && k' in ss && e in ss[k] && e in ss[k'] ==> k == k')
    && forall k :: k in ss ==> ss[k] != {}
  }

  /** All entries under one key have the same flag: set exactly if the key is in the set. */
  ghost predicate FlagsAre(ss: Sets, probed: set<Key>)
    reads Union(ss)
  {
    forall k, e :: k in ss && e in ss[k] ==> (e.matched <==> k in probed)
  }

  // ---- The build map ----

  /** The records of stream i with key k among the messages, in order. */
  function Select(ms: seq<Build.BuildRecord>, i: nat, k: Key): seq<Rec> {
    if ms == [] then []
    else
      var init, last := ms[..|ms| - 1], ms[|ms| - 1];
      Select(init, i, k) + if last.stream == i && last.key == k then [last.rec] else []
  }

  /** The table groups the messages by key and stream name. */
  ghost predicate Grouped(names: seq<string>, ms: seq<Build.BuildRecord>, t: Table) {
    && (forall k :: k in t <==> exists m :: m in ms && m.key == k)
    && forall k, i :: k in t && 0 <= i < |names| ==> InGroup(t[k], names[i]) == Select(ms, i, k)
  }

  function AddRecord(t: Table, k: Key, name: string, r: Rec): Table {
    var g := if k in t then t[k] else map[];
    t[k := g[name := InGroup(g, name) + [r]]]
  }

  lemma {:induction false} SelectNone(ms: seq<Build.BuildRecord>, i: nat, k: Key)
    requires forall m :: m in ms ==> m.key != k
    ensures Select(ms, i, k) == []
  {
    if ms != [] { SelectNone(ms[..|ms| - 1], i, k); }
  }

  lemma GroupStep(names: seq<string>, ms: seq<Build.BuildRecord>, m: Build.BuildRecord, t: Table)
    requires NoDup(names) && m.stream < |names| && Grouped(names, ms, t)
    ensures Grouped(names, ms + [m], AddRecord(t, m.key, names[m.stream], m.rec))
  {
    var ms', t' := ms + [m], AddRecord(t, m.key, names[m.stream], m.rec);
    assert ms'[..|ms|] == ms && m in ms';
    forall k, i | k in t' && 0 <= i < |names| ensures InGroup(t'[k], names[i]) == Select(ms', i, k) {
      if k == m.key && k !in t { SelectNone(ms, i, k); }
    }
  }

  function Listed(g: Entries, name: string): seq<BuildEntry> {
    if name in g then g[name] else []
  }

  function FileIn(g: Entries, name: string, e: BuildEntry): Entries {
    g[name := Listed(g, name) + [e]]
  }

  function FileUnder(bm: BuildMap, k: Key, name: string, e: BuildEntry): BuildMap {
    bm[k := FileIn(if k in bm then bm[k] else map[], name, e)]
  }

  lemma FileInGroup(g: Entries, name: string, e: BuildEntry)
    ensures GroupOf(FileIn(g, name, e)) == GroupOf(g)[name := InGroup(GroupOf(g), name) + [e.record]]
    ensures EntriesOf(FileIn(g, name, e)) == EntriesOf(g) + {e}
  {
    assert Records(Listed(g, name) + [e]) == Records(Listed(g, name)) + [e.record];
    var g' := FileIn(g, name, e);
    assert e in g'[name];
    forall x | x in EntriesOf(g) ensures x in EntriesOf(g') {
      var n :| n in g && x in g[n];
      assert x in g'[n];
    }
  }

  lemma SetsStep(ss: Sets, k: Key, e: BuildEntry)
    requires Filed(ss) && e !in Union(ss)
    ensures var ss' := ss[k := (if k in ss then ss[k] else {}) + {e}];
      Filed(ss') && Union(ss') == Union(ss) + {e}
  {
    var ss' := ss[k := (if k in ss then ss[k] else {}) + {e}];
    assert e in ss'[k];
    forall j, x | j in ss && x in ss[j] ensures x in ss'[j] && x in Union(ss) {}
  }

  lemma FileStep(bm: BuildMap, k: Key, name: string, e: BuildEntry)
    requires Filed(SetsOf(bm)) && e !in Union(SetsOf(bm))
    ensures TableOf(FileUnder(bm, k, name, e)) == AddRecord(TableOf(bm), k, name, e.record)
    ensures Filed(SetsOf(FileUnder(bm, k, name, e)))
    ensures Union(SetsOf(FileUnder(bm, k, name, e))) == Union(SetsOf(bm)) + {e}
  {
    TableStep(bm, k, name, e);
    SetsStep(SetsOf(bm), k, e);
    SetsOfStep(bm, k, name, e);
  }

  lemma TableStep(bm: BuildMap, k: Key, name: string, e: BuildEntry)
    ensures TableOf(FileUnder(bm, k, name, e)) == AddRecord(TableOf(bm), k, name, e.record)
  {
    var g: Entries := if k in bm then bm[k] else map[];
    FileInGroup(g, name, e);
    assert GroupOf(g) == if k in TableOf(bm) then TableOf(bm)[k] else map[];
    assert TableOf(FileUnder(bm, k, name, e)) == TableOf(bm)[k := GroupOf(FileIn(g, name, e))];
  }

  lemma SetsOfStep(bm: BuildMap, k: Key, name: string, e: BuildEntry)
    ensures SetsOf(FileUnder(bm, k, name, e)) == SetsOf(bm)[k := (if k in SetsOf(bm) then SetsOf(bm)[k] else {}) + {e}]
  {
    var g: Entries := if k in bm then bm[k] else map[];
    FileInGroup(g, name, e);
    assert EntriesOf(g) == if k in SetsOf(bm) then SetsOf(bm)[k] else {};
    assert SetsOf(FileUnder(bm, k, name, e)) == SetsOf(bm)[k := EntriesOf(FileIn(g, name, e))];
  }

  /** Files one record, in a new entry, under its key and stream. */
  method AppendRecord(bm: BuildMap, k: Key, name: string, r: Rec, ghost ss: Sets, ghost t: Table)
    returns (bm': BuildMap, ghost ss': Sets, ghost t': Table)
    requires ss == SetsOf(bm) && t == TableOf(bm) && Filed(ss)
    ensures ss' == SetsOf(bm') && t' == TableOf(bm') && Filed(ss')
    ensures t' == AddRecord(t, k, name, r)
    ensures Union(ss) <= Union(ss') && fresh(Union(ss') - Union(ss)) && forall e :: e in Union(ss') - Union(ss) ==>
      !e.matched
  {
    var entry := new BuildEntry(r);
    bm' := bm;
    if k !in bm' {
      bm' := bm'[k := map[]];
    }
    var group := bm'[k];
    bm' := bm'[k := group[name := (if name in group then group[name] else []) + [entry]]];
    assert bm' == FileUnder(bm, k, name, entry);
    FileStep(bm, k, name, entry);
    ss', t' := SetsOf(bm'), TableOf(bm');
  }

  /** Groups what the collector took from the merged channel, each record in an entry of its own. */
  method CollectBuildMap(names: seq<string>, taken: seq<Build.BuildRecord>) returns (bm: BuildMap)
    requires NoDup(names) && forall m :: m in taken ==> m.stream < |names|
    ensures fresh(Union(SetsOf(bm))) && Filed(SetsOf(bm)) && FlagsAre(SetsOf(bm), {})
    ensures Grouped(names, taken, TableOf(bm))
  {
    bm := map[];
    ghost var ss, t: Table := map[], map[];
    for j := 0 to |taken|
      invariant ss == SetsOf(bm) && t == TableOf(bm)
      invariant fresh(Union(ss)) && Filed(ss) && forall e :: e in Union(ss) ==> !e.matched
      invariant Grouped(names, taken[..j], t)
    {
      var m := taken[j];
      assert taken[..j + 1] == taken[..j] + [m];
      GroupStep(names, taken[..j], m, t);
      bm, ss, t := AppendRecord(bm, m.key, names[m.stream], m.rec, ss, t);
    }
    assert taken[..|taken|] == taken;
    NoFlags(ss);
  }

  lemma NoFlags(ss: Sets)
    requires forall e :: e in Union(ss) ==> !e.matched
    ensures FlagsAre(ss, {})
  {
  }

  // ---- Combinations and their records ----

  /** Every combination with every entry of one more stream. */
  method ExtendWithEntries(combos: seq<Combo>, name: string, es: seq<BuildEntry>) returns (r: seq<Combo>)
    requires es != []
    ensures r == Extend(combos, name, Options(Records(es)))
  {
    r := [];
    ghost var options := Options(Records(es));
    for i := 0 to |combos|
      invariant r == Extend(combos[..i], name, options)
    {
      assert combos[..i + 1][..i] == combos[..i] && combos[..i + 1][i] == combos[i];
      ghost var before := r;
      for j := 0 to |es|
        invariant r == before + seq(j, h requires 0 <= h < j => combos[i][name := options[h]])
      {
        r := r + [combos[i][name := Some(es[j].record)]];
      }
    }
    assert combos[..|combos|] == combos;
  }

  method ExtendWithNil(combos: seq<Combo>, name: string) returns (r: seq<Combo>)
    ensures r == Extend(combos, name, [None])
  {
    r := [];
    for i := 0 to |combos|
      invariant r == Extend(combos[..i], name, [None])
    {
      assert combos[..i + 1][..i] == combos[..i] && combos[..i + 1][i] == combos[i];
      r := r + [combos[i][name := None]];
    }
    assert combos[..|combos|] == combos;
  }

  lemma GroupLookup(g: Entries, name: string)
    ensures InGroup(GroupOf(g), name) == Records(Listed(g, name))
    ensures InGroup(GroupOf(g), name) == [] <==> Listed(g, name) == []
  {
  }

  /** One more stream: its entries, or nil; for an inner join a missing stream ends it all. */
  method ExtendForStream(cfg: Config, combos: seq<Combo>, name: string, g: Entries)
    returns (r: seq<Combo>, missing: bool)
    ensures missing <==> cfg.joinType.Inner? && InGroup(GroupOf(g), name) == []
    ensures !missing ==> r == Extend(combos, name, Options(InGroup(GroupOf(g), name)))
  {
    GroupLookup(g, name);
    r, missing := [], false;
    var es := if name in g then g[name] else [];
    if es == [] {
      if cfg.joinType.Inner? {
        return r, true;
      }
      r := ExtendWithNil(combos, name);
    } else {
      r := ExtendWithEntries(combos, name, es);
    }
  }

  ghost predicate Present(names: seq<string>, g: Group) {
    names == [] || (Present(names[..|names| - 1], g) && InGroup(g, names[|names| - 1]) != [])
  }

  lemma {:induction false} PresentMeans(names: seq<string>, g: Group)
    ensures Present(names, g) <==> forall n :: n in names ==> InGroup(g, n) != []
  {
    if names != [] {
      assert names == names[..|names| - 1] + [names[|names| - 1]];
      PresentMeans(names[..|names| - 1], g);
    }
  }

  lemma ProductSnoc(start: Combo, names: seq<string>, i: nat, g: Group)
    requires i < |names|
    ensures Product(start, names[..i + 1], g) ==
      Extend(Product(start, names[..i], g), names[i], Options(InGroup(g, names[i])))
    ensures Present(names[..i + 1], g) <==> Present(names[..i], g) && InGroup(g, names[i]) != []
  {
    assert names[..i + 1][..i] == names[..i] && names[..i + 1][i] == names[i];
  }

  method GetCombinations(cfg: Config, probe: Option<Rec>, g: Entries) returns (combos: seq<Combo>)
    ensures combos == Combinations(cfg, probe, GroupOf(g))
  {
    combos := if probe.Some? then [map[cfg.probeName := probe]] else [map[]];
    var names := cfg.buildNames;
    ghost var group, start := GroupOf(g), Start(cfg, probe);
    for i := 0 to |names|
      invariant combos == Product(start, names[..i], group)
      invariant cfg.joinType.Inner? ==> Present(names[..i], group)
    {
      ProductSnoc(start, names, i, group);
      var missing;
      combos, missing := ExtendForStream(cfg, combos, names[i], g);
      if missing {
        PresentMeans(names[..i + 1], group);
        return [];
      }
    }
    assert names[..|names|] == names;
    PresentMeans(names, group);
  }

  /** The records sent are the joined records of the combinations, one for one. */
  ghost predicate Sends(strategy: Strategy, combos: seq<Combo>, sent: seq<Joined>) {
    |sent| == |combos| && forall i :: 0 <= i < |combos| ==> IsJoined(strategy, combos[i], sent[i])
  }

  lemma SendsBoth(strategy: Strategy, combos: seq<Combo>, sent: seq<Joined>, combos': seq<Combo>, sent': seq<Joined>)
    requires Sends(strategy, combos, sent) && Sends(strategy, combos', sent')
    ensures Sends(strategy, combos + combos', sent + sent')
  {
    forall i | 0 <= i < |combos + combos'| ensures IsJoined(strategy, (combos + combos')[i], (sent + sent')[i]) {
      if i < |combos| {
        assert (combos + combos')[i] == combos[i] && (sent + sent')[i] == sent[i];
      } else {
        assert (combos + combos')[i] == combos'[i - |combos|] && (sent + sent')[i] == sent'[i - |combos|];
      }
    }
  }

  /** Sends the joined records of one group; every output channel receives the same sequence. */
  method EmitJoinedRecords(cfg: Config, strategy: Strategy, probe: Option<Rec>, g: Entries, recordsJoined: nat)
    returns (sent: seq<Joined>, recordsJoined': nat)
    ensures Sends(strategy, Combinations(cfg, probe, GroupOf(g)), sent) && recordsJoined' == recordsJoined + |sent|
  {
    var combos := GetCombinations(cfg, probe, g);
    sent, recordsJoined' := [], recordsJoined;
    for i := 0 to |combos|
      invariant Sends(strategy, combos[..i], sent) && recordsJoined' == recordsJoined + |sent|
    {
      var record := ConstructJoinedRecord(strategy, combos[i]);
      recordsJoined' := recordsJoined' + 1;
      sent := sent + [record];
    }
    assert combos[..|combos|] == combos;
  }

  // ---- The probe phase ----

  method MarkMatched(g: Entries)
    modifies EntriesOf(g)
    ensures forall e :: e in EntriesOf(g) ==> e.matched
  {
    var todo := g.Keys;
    while todo != {}
      invariant todo <= g.Keys
      invariant forall n, e :: n in g && n !in todo && e in g[n] ==> e.matched
      modifies EntriesOf(g)
      decreases todo
    {
      var name :| name in todo;
      MarkList(g, name);
      todo := todo - {name};
    }
  }

  method MarkList(g: Entries, name: string)
    requires name in g
    modifies EntriesOf(g)
    ensures forall e :: e in g[name] ==> e.matched
    ensures forall e :: e in EntriesOf(g) && old(e.matched) ==> e.matched
  {
    var es := g[name];
    for i := 0 to |es|
      invariant forall j :: 0 <= j < i ==> es[j].matched
      invariant forall e :: e in EntriesOf(g) && old(e.matched) ==> e.matched
    {
      assert es[i] in EntriesOf(g) by { assert es[i] in g[name]; }
      es[i].matched := true;
    }
  }

  function Probed(cfg: Config, p: Rec): set<Key> {
    var k := cfg.key(cfg.probeName, p);
    if k.Some? then {k.value} else {}
  }

  lemma ProbedStep(cfg: Config, ps: seq<Rec>, p: Rec)
    ensures ProbedKeys(cfg, ps + [p]) == ProbedKeys(cfg, ps) + Probed(cfg, p)
  {
  }

  function Unkeyed(cfg: Config, ps: seq<Rec>): nat {
    if ps == [] then 0 else Unkeyed(cfg, ps[..|ps| - 1]) + if cfg.key(cfg.probeName, ps[|ps| - 1]).None? then 1 else 0
  }

  /** One probe record: a found key marks all its entries, and the combinations are sent. */
  method ProbeOne(cfg: Config, strategy: Strategy, bm: BuildMap, p: Rec, recordsJoined: nat, ghost probed: set<Key>)
    returns (sent: seq<Joined>, recordsJoined': nat, skip: bool)
    requires Filed(SetsOf(bm)) && FlagsAre(SetsOf(bm), probed)
    modifies Union(SetsOf(bm))
    ensures FlagsAre(SetsOf(bm), probed + Probed(cfg, p)) && (skip <==> cfg.key(cfg.probeName, p).None?)
    ensures Sends(strategy, ProbeCombos(cfg, TableOf(bm), p), sent) && recordsJoined' == recordsJoined + |sent|
  {
    sent, recordsJoined', skip := [], recordsJoined, false;
    var key := cfg.key(cfg.probeName, p);
    if key.None? {
      skip := true;
    } else if key.value in bm {
      var group := bm[key.value];
      assert SetsOf(bm)[key.value] == EntriesOf(group);
      assert EntriesOf(group) <= Union(SetsOf(bm));
      MarkMatched(group);
      sent, recordsJoined' := EmitJoinedRecords(cfg, strategy, Some(p), group, recordsJoined);
    } else if cfg.joinType.Left? || cfg.joinType.Outer? {
      assert GroupOf(map[]) == map[];
      sent, recordsJoined' := EmitJoinedRecords(cfg, strategy, Some(p), map[], recordsJoined);
    }
  }

  lemma {:induction false} UnkeyedGrows(cfg: Config, ps: seq<Rec>, n: nat)
    requires n <= |ps|
    ensures Unkeyed(cfg, ps[..n]) <= Unkeyed(cfg, ps)
    decreases |ps|
  {
    if n == |ps| {
      assert ps[..n] == ps;
    } else {
      assert ps[..|ps| - 1][..n] == ps[..n];
      UnkeyedGrows(cfg, ps[..|ps| - 1], n);
    }
  }

  /**
   All probe records in turn; afterwards exactly the entries of the probed keys are flagged. The phase
   waits for ever if there are more key errors than the error channel has room for.
   */
  method RunProbePhase(cfg: Config, strategy: Strategy, bm: BuildMap, probe: seq<Rec>, errorRoom: nat)
    returns (sent: seq<Joined>, processed: nat, recordsJoined: nat, skipped: nat, waits: bool)
    requires Filed(SetsOf(bm)) && FlagsAre(SetsOf(bm), {})
    modifies Union(SetsOf(bm))
    ensures waits <==> Unkeyed(cfg, probe) > errorRoom
    ensures !waits ==> FlagsAre(SetsOf(bm), ProbedKeys(cfg, probe))
    ensures !waits ==> Sends(strategy, ProbeRows(cfg, TableOf(bm), probe), sent)
    ensures !waits ==> recordsJoined == |sent| && processed == |probe| && skipped == Unkeyed(cfg, probe)
  {
    sent, processed, recordsJoined, skipped, waits := [], 0, 0, 0, false;
    ghost var probed: set<Key> := {};
    while processed < |probe|
      invariant processed <= |probe| && FlagsAre(SetsOf(bm), probed) && probed == ProbedKeys(cfg, probe[..processed])
      invariant Sends(strategy, ProbeRows(cfg, TableOf(bm), probe[..processed]), sent)
      invariant recordsJoined == |sent| && skipped == Unkeyed(cfg, probe[..processed]) <= errorRoom
    {
      var p := probe[processed];
      ghost var ps := probe[..processed + 1];
      assert ps[..processed] == probe[..processed] && ps[processed] == p && ps == probe[..processed] + [p];
      ProbedStep(cfg, probe[..processed], p);
      var more, skip;
      more, recordsJoined, skip := ProbeOne(cfg, strategy, bm, p, recordsJoined, probed);
      ghost var rows := ProbeRows(cfg, TableOf(bm), probe[..processed]);
      SendsBoth(strategy, rows, sent, ProbeCombos(cfg, TableOf(bm), p), more);
      sent := sent + more;
      processed := processed + 1;
      if skip {
        skipped := skipped + 1;
        if skipped > errorRoom {
          UnkeyedGrows(cfg, probe, processed);
          return sent, processed, recordsJoined, skipped, true;
        }
      }
      probed := probed + Probed(cfg, p);
    }
    assert probe[..|probe|] == probe;
  }

  // ---- The post-probe phase ----

  method AnyMatched(g: Entries) returns (matched: bool)
    ensures matched <==> exists e :: e in EntriesOf(g) && e.matched
  {
    var todo := g.Keys;
    while todo != {}
      invariant todo <= g.Keys
      invariant forall n, e :: n in g && n !in todo && e in g[n] ==> !e.matched
      decreases todo
    {
      var name :| name in todo;
      var es := g[name];
      for i := 0 to |es|
        invariant forall j :: 0 <= j < i ==> !es[j].matched
      {
        if es[i].matched {
          assert es[i] in g[name] && es[i] in EntriesOf(g);
          return true;
        }
      }
      todo := todo - {name};
    }
    return false;
  }

  /** One key: nothing if some entry under it was matched, else all its combinations without a probe record. */
  method PostProbeOne(cfg: Config, strategy: Strategy, bm: BuildMap, key: Key, recordsJoined: nat,
                      ghost probed: set<Key>)
    returns (sent: seq<Joined>, recordsJoined': nat, matched: bool)
    requires Filed(SetsOf(bm)) && FlagsAre(SetsOf(bm), probed) && key in bm
    ensures matched <==> key in probed
    ensures matched ==> sent == [] && recordsJoined' == recordsJoined
    ensures !matched ==>
      Sends(strategy, Combinations(cfg, None, TableOf(bm)[key]), sent) && recordsJoined' == recordsJoined + |sent|
  {
    sent, recordsJoined' := [], recordsJoined;
    matched := AnyMatched(bm[key]);
    OneFlag(bm, probed, key);
    if !matched {
      sent, recordsJoined' := EmitJoinedRecords(cfg, strategy, None, bm[key], recordsJoined);
    }
  }

  /** The build records of the keys that no probe record had; ks is the order in which they were visited. */
  method RunPostProbePhase(cfg: Config, strategy: Strategy, bm: BuildMap, ghost probed: set<Key>)
    returns (sent: seq<Joined>, recordsJoined: nat, ghost ks: seq<Key>)
    requires Filed(SetsOf(bm)) && FlagsAre(SetsOf(bm), probed)
    ensures NoDup(ks) && Elements(ks) == (if KeepsUnmatchedBuild(cfg) then bm.Keys - probed else {})
      && forall k :: k in ks ==> k in bm
    ensures Sends(strategy, PostRows(cfg, TableOf(bm), ks), sent) && recordsJoined == |sent|
  {
    sent, recordsJoined, ks := [], 0, [];
    if !cfg.joinType.Right? && !cfg.joinType.Outer? {
      return;
    }
    var todo := bm.Keys;
    ghost var t := TableOf(bm);
    while todo != {}
      invariant todo <= bm.Keys && Visited(t, todo, probed, ks)
      invariant Sends(strategy, PostRows(cfg, t, ks), sent) && recordsJoined == |sent|
      decreases todo
    {
      var key :| key in todo;
      var more, matched;
      more, recordsJoined, matched := PostProbeOne(cfg, strategy, bm, key, recordsJoined, probed);
      if !matched {
        PostSends(cfg, strategy, t, todo, probed, ks, key, sent, more);
        sent, ks := sent + more, ks + [key];
      }
      todo := todo - {key};
    }
  }

  lemma OneFlag(bm: BuildMap, probed: set<Key>, key: Key)
    requires Filed(SetsOf(bm)) && FlagsAre(SetsOf(bm), probed) && key in bm
    ensures (exists e :: e in EntriesOf(bm[key]) && e.matched) <==> key in probed
  {
  }

  /** ks lists each unprobed key that is not in todo, once. */
  ghost predicate Visited(t: Table, todo: set<Key>, probed: set<Key>, ks: seq<Key>) {
    NoDup(ks) && forall k :: k in ks <==> k in t && k !in todo && k !in probed
  }

  lemma PostSends(cfg: Config, strategy: Strategy, t: Table, todo: set<Key>, probed: set<Key>, ks: seq<Key>, key: Key,
                  sent: seq<Joined>, more: seq<Joined>)
    requires key in t && key in todo && key !in probed && Visited(t, todo, probed, ks)
    requires Sends(strategy, PostRows(cfg, t, ks), sent) && Sends(strategy, Combinations(cfg, None, t[key]), more)
    ensures Visited(t, todo - {key}, probed, ks + [key])
    ensures Sends(strategy, PostRows(cfg, t, ks + [key]), sent + more)
  {
    PostRowsSnoc(cfg, t, ks, key);
    SendsBoth(strategy, PostRows(cfg, t, ks), sent, Combinations(cfg, None, t[key]), more);
  }

  lemma PostRowsSnoc(cfg: Config, t: Table, ks: seq<Key>, key: Key)
    requires key in t && forall k :: k in ks ==> k in t
    ensures forall k :: k in ks + [key] ==> k in t
    ensures PostRows(cfg, t, ks + [key]) == PostRows(cfg, t, ks) + Combinations(cfg, None, t[key])
  {
  }
}
