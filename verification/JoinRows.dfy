/** The rows of a multi-way join: what the join of some inputs is, and the product that computes it. */
module JoinRows {
  import opened Prelude

  /** A record is a reference, told apart by id, to a map of fields. */
  datatype Rec = Rec(id: nat, fields: map<string, string>)

  /** A join key after normalisation; nil is a key like any other. */
  datatype Key = NilKey | IntKey(i: int) | TextKey(text: string)

  datatype JoinType = Inner | Left | Right | Outer

  /** Key extraction is a function of the stream's key rule and the record; None is an extraction error. */
  datatype Config = Config(joinType: JoinType, probeName: string, buildNames: seq<string>,
                           key: (string, Rec) -> Option<Key>)
  {
    /** What validation ensures: one probe, at least one build stream, all names distinct. */
    ghost predicate Valid() {
      buildNames != [] && NoDup(buildNames) && probeName !in buildNames
    }
  }

  datatype Inputs = Inputs(probe: seq<Rec>, builds: map<string, seq<Rec>>)

  /** A combination: the probe's record if there is one, and a record or nil for every build stream. */
  type Combo = map<string, Option<Rec>>

  function WithKey(cfg: Config, name: string, s: seq<Rec>, k: Key): seq<Rec> {
    if s == [] then []
    else
      var init, last := s[..|s| - 1], s[|s| - 1];
      WithKey(cfg, name, init, k) + if cfg.key(name, last) == Some(k) then [last] else []
  }

  /** The records of a build stream that have the key k. */
  function Matching(cfg: Config, ins: Inputs, name: string, k: Key): seq<Rec> {
    if name in ins.builds then WithKey(cfg, name, ins.builds[name], k) else []
  }

  ghost predicate ValidInputs(cfg: Config, ins: Inputs) {
    && cfg.Valid() && ins.builds.Keys == Elements(cfg.buildNames) && NoDup(ins.probe)
    && forall n :: n in ins.builds ==> NoDup(ins.builds[n])
  }

  /** Some build stream has a record with the key. */
  ghost predicate KeyIsBuilt(cfg: Config, ins: Inputs, k: Key) {
    exists n :: n in cfg.buildNames && Matching(cfg, ins, n, k) != []
  }

  /** Some probe record has the key. */
  ghost predicate KeyIsProbed(cfg: Config, ins: Inputs, k: Key) {
    exists p :: p in ins.probe && cfg.key(cfg.probeName, p) == Some(k)
  }

  /** One of the records, or nil exactly if there are none. */
  predicate IsChoiceOf(o: Option<Rec>, rs: seq<Rec>) {
    match o
    case Some(r) => r in rs
    case None => rs == []
  }

  /** Under every build stream c holds one of the records with key k, or nil exactly if there are none. */
  ghost predicate Covers(cfg: Config, ins: Inputs, c: Combo, k: Key) {
    forall n :: n in cfg.buildNames ==> n in c && IsChoiceOf(c[n], Matching(cfg, ins, n, k))
  }

  ghost predicate NoNils(cfg: Config, c: Combo) {
    forall n :: n in cfg.buildNames ==> n in c && c[n].Some?
  }

  /**
   The relational join, as a statement about one row. A row with a probe record p pairs it with
   records of p's key: of every stream for an inner join, else nil where there are none; left and
   outer joins also keep the probe records without partners (bad or unmatched keys apart). A row
   without a probe record, for right and outer joins, combines the build records of a key that no
   probe record has.
   */
  ghost predicate IsProbeRow(cfg: Config, ins: Inputs, c: Combo, p: Rec) {
    && p in ins.probe && c.Keys == Elements(cfg.buildNames) + {cfg.probeName} && c[cfg.probeName] == Some(p)
    && match cfg.key(cfg.probeName, p)
       case None => false
       case Some(k) =>
         && Covers(cfg, ins, c, k)
         && (KeyIsBuilt(cfg, ins, k) || cfg.joinType.Left? || cfg.joinType.Outer?)
         && (cfg.joinType.Inner? ==> NoNils(cfg, c))
  }

  ghost predicate IsBuildRow(cfg: Config, ins: Inputs, c: Combo, k: Key) {
    && (cfg.joinType.Right? || cfg.joinType.Outer?)
    && c.Keys == Elements(cfg.buildNames)
    && KeyIsBuilt(cfg, ins, k) && !KeyIsProbed(cfg, ins, k) && Covers(cfg, ins, c, k)
  }

  ghost predicate IsRow(cfg: Config, ins: Inputs, c: Combo) {
    (exists p :: IsProbeRow(cfg, ins, c, p)) || (exists k :: IsBuildRow(cfg, ins, c, k))
  }

  // ---- The product ----

  /** Every combination with every option for one more stream, in order. */
  function Extend(combos: seq<Combo>, name: string, options: seq<Option<Rec>>): (r: seq<Combo>)
    ensures |r| == |combos| * |options|
  {
    if combos == [] then []
    else
      var init, last := combos[..|combos| - 1], combos[|combos| - 1];
      Extend(init, name, options) + seq(|options|, j requires 0 <= j < |options| => last[name := options[j]])
  }

  /** The records of one key, per stream. */
  type Group = map<string, seq<Rec>>

  function InGroup(g: Group, name: string): seq<Rec> {
    if name in g then g[name] else []
  }

  /** A missing stream contributes nil. */
  function Options(rs: seq<Rec>): (r: seq<Option<Rec>>)
    ensures |r| == if |rs| == 0 then 1 else |rs|
  {
    if rs == [] then [None] else seq(|rs|, j requires 0 <= j < |rs| => Some(rs[j]))
  }

  function Product(start: Combo, names: seq<string>, g: Group): seq<Combo> {
    if names == [] then [start]
    else
      var init, last := names[..|names| - 1], names[|names| - 1];
      Extend(Product(start, init, g), last, Options(InGroup(g, last)))
  }

  function Start(cfg: Config, probe: Option<Rec>): Combo {
    if probe.Some? then map[cfg.probeName := probe] else map[]
  }

  ghost predicate AllPresent(cfg: Config, g: Group) {
    forall n :: n in cfg.buildNames ==> InGroup(g, n) != []
  }

  /** The combinations of one probe record, or none, with one group: nothing for inner if a stream is missing. */
  ghost function Combinations(cfg: Config, probe: Option<Rec>, g: Group): seq<Combo> {
    if cfg.joinType.Inner? && !AllPresent(cfg, g) then [] else Product(Start(cfg, probe), cfg.buildNames, g)
  }

  lemma {:induction false} ExtendMembers(combos: seq<Combo>, name: string, options: seq<Option<Rec>>, c: Combo)
    ensures c in Extend(combos, name, options) <==> exists b, o :: b in combos && o in options && c == b[name := o]
  {
    if combos != [] {
      var init, last := combos[..|combos| - 1], combos[|combos| - 1];
      ExtendMembers(init, name, options, c);
      var more := seq(|options|, j requires 0 <= j < |options| => last[name := options[j]]);
      assert Extend(combos, name, options) == Extend(init, name, options) + more;
      if c in more {
        var j :| 0 <= j < |options| && c == more[j];
        assert last in combos && options[j] in options && c == last[name := options[j]];
      } else if c in Extend(init, name, options) {
        var b, o :| b in init && o in options && c == b[name := o];
        assert b in combos;
      }
      forall b, o | b in combos && o in options && c == b[name := o] ensures c in Extend(combos, name, options) {
        if b == last {
          var j :| 0 <= j < |options| && options[j] == o;
          assert more[j] == c;
        } else {
          assert b in init;
          assert c in Extend(init, name, options);
        }
      }
    }
  }

  lemma {:induction false} ExtendNoDup(combos: seq<Combo>, name: string, options: seq<Option<Rec>>)
    requires NoDup(combos) && NoDup(options) && forall c :: c in combos ==> name !in c
    ensures NoDup(Extend(combos, name, options))
  {
    if combos != [] {
      var init, last := combos[..|combos| - 1], combos[|combos| - 1];
      ExtendNoDup(init, name, options);
      var more := seq(|options|, j requires 0 <= j < |options| => last[name := options[j]]);
      forall i, j | 0 <= i < j < |more| ensures more[i] != more[j] { assert more[i][name] != more[j][name]; }
      forall c | c in Extend(init, name, options) ensures c !in more {
        ExtendMembers(init, name, options, c);
        var b, o :| b in init && o in options && c == b[name := o];
        assert b != last;
        if c in more { Unextend(b, last, name, o, c[name]); }
      }
      NoDupAppend(Extend(init, name, options), more);
    }
  }

  lemma Unextend(b: Combo, b': Combo, name: string, o: Option<Rec>, o': Option<Rec>)
    requires name !in b && name !in b' && b[name := o] == b'[name := o']
    ensures b == b'
  {
    forall n | n in b ensures n in b' && b'[n] == b[n] { assert b[name := o][n] == b[n]; }
    forall n | n in b' ensures n in b { assert b'[name := o'][n] == b'[n]; }
  }

  /** What the product holds: every way to choose one option for every stream, each once. */
  ghost predicate IsChoice(start: Combo, names: seq<string>, g: Group, c: Combo) {
    && c.Keys == start.Keys + Elements(names)
    && (forall n :: n in start ==> c[n] == start[n])
    && forall n :: n in names ==> c[n] in Options(InGroup(g, n))
  }

  lemma Prefix(names: seq<string>)
    requires names != [] && NoDup(names)
    ensures NoDup(names[..|names| - 1]) && names[|names| - 1] !in names[..|names| - 1]
    ensures Elements(names) == Elements(names[..|names| - 1]) + {names[|names| - 1]}
  {
  }

  lemma ChoiceDown(start: Combo, names: seq<string>, g: Group, c: Combo)
    requires names != [] && NoDup(names) && (forall n :: n in names ==> n !in start) && IsChoice(start, names, g, c)
    ensures var last := names[|names| - 1];
      last in c && c == (c - {last})[last := c[last]] && c[last] in Options(InGroup(g, last))
        && IsChoice(start, names[..|names| - 1], g, c - {last})
  {
    Prefix(names);
    assert names[|names| - 1] in names;
  }

  lemma ChoiceUp(start: Combo, names: seq<string>, g: Group, b: Combo, o: Option<Rec>)
    requires names != [] && NoDup(names) && (forall n :: n in names ==> n !in start)
    requires IsChoice(start, names[..|names| - 1], g, b)
    requires o in Options(InGroup(g, names[|names| - 1]))
    ensures IsChoice(start, names, g, b[names[|names| - 1] := o])
  {
    Prefix(names);
    var init, last := names[..|names| - 1], names[|names| - 1];
    var c := b[last := o];
    assert last in names;
    forall n | n in names ensures c[n] in Options(InGroup(g, n)) {
      if n != last { assert n in Elements(names) && n in init; }
    }
  }

  lemma {:induction false} ProductMembers(start: Combo, names: seq<string>, g: Group, c: Combo)
    requires NoDup(names) && forall n :: n in names ==> n !in start
    ensures c in Product(start, names, g) <==> IsChoice(start, names, g, c)
  {
    if names == [] {
      if IsChoice(start, names, g, c) { assert c == start; }
    } else {
      var init, last := names[..|names| - 1], names[|names| - 1];
      Prefix(names);
      var options := Options(InGroup(g, last));
      ExtendMembers(Product(start, init, g), last, options, c);
      forall b, o | b in Product(start, init, g) && o in options && c == b[last := o]
        ensures IsChoice(start, names, g, c)
      {
        ProductMembers(start, init, g, b);
        ChoiceUp(start, names, g, b, o);
      }
      if IsChoice(start, names, g, c) {
        ChoiceDown(start, names, g, c);
        ProductMembers(start, init, g, c - {last});
      }
    }
  }

  lemma {:induction false} ProductNoDup(start: Combo, names: seq<string>, g: Group)
    requires NoDup(names) && forall n :: n in names ==> n !in start && NoDup(InGroup(g, n))
    ensures NoDup(Product(start, names, g))
  {
    if names != [] {
      var init, last := names[..|names| - 1], names[|names| - 1];
      Prefix(names);
      ProductNoDup(start, init, g);
      forall b | b in Product(start, init, g) ensures last !in b { ProductMembers(start, init, g, b); }
      ExtendNoDup(Product(start, init, g), last, Options(InGroup(g, last)));
    }
  }

  /** The product of max(1, n) over the streams. */
  function Choices(names: seq<string>, g: Group): nat {
    if names == [] then 1
    else
      var records := InGroup(g, names[|names| - 1]);
      Choices(names[..|names| - 1], g) * if records == [] then 1 else |records|
  }

  /** How many combinations there are. */
  lemma {:induction false} ProductSize(start: Combo, names: seq<string>, g: Group)
    ensures |Product(start, names, g)| == Choices(names, g) >= 1
  {
    if names != [] {
      var init, last := names[..|names| - 1], names[|names| - 1];
      ProductSize(start, init, g);
      assert |Product(start, names, g)| == |Product(start, init, g)| * |Options(InGroup(g, last))|;
      Positive(Choices(init, g), |Options(InGroup(g, last))|);
    }
  }

  lemma Positive(a: nat, b: nat)
    requires a >= 1 && b >= 1
    ensures a * b >= 1
  {
  }

  /** The order in which the build streams are listed changes neither the combinations nor their number. */
  lemma OrderOfStreamsIsIrrelevant(start: Combo, names: seq<string>, names': seq<string>, g: Group)
    requires NoDup(names) && NoDup(names') && Elements(names) == Elements(names')
    requires forall n :: n in names ==> n !in start && NoDup(InGroup(g, n))
    ensures multiset(Product(start, names, g)) == multiset(Product(start, names', g))
    ensures Choices(names, g) == Choices(names', g)
  {
    assert forall n :: n in names <==> n in Elements(names);
    assert forall n :: n in names' <==> n in Elements(names');
    ProductNoDup(start, names, g);
    ProductNoDup(start, names', g);
    forall c ensures c in Product(start, names, g) <==> c in Product(start, names', g) {
      ProductMembers(start, names, g, c);
      ProductMembers(start, names', g, c);
      assert IsChoice(start, names, g, c) <==> IsChoice(start, names', g, c);
    }
    SameMultiset(Product(start, names, g), Product(start, names', g));
    ProductSize(start, names, g);
    ProductSize(start, names', g);
    assert |multiset(Product(start, names, g))| == |Product(start, names, g)|;
    assert |multiset(Product(start, names', g))| == |Product(start, names', g)|;
  }
}
