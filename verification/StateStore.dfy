/** The nested view of the flat state: every value deep copied to the end of its dotted path. */
module StateStore {
  import opened Prelude
  import opened Paths
  import opened DeepCopies
  import opened StateTree
  import opened StateObs
  import opened StateInsert
  import opened StateRegions
  import opened StateShape

  /** The objects of s as they are now. */
  ghost function Bodies(s: set<Obj>): Heap
    reads s
  {
    map o | o in s :: o.body
  }

  /** Nothing in own refers outside own. */
  ghost predicate SelfContained(own: set<Obj>)
    reads own
  {
    forall o :: o in own ==> BodyIn(o.body, own)
  }

  // ---- The walk to the last map ----

  /** One step down the path: into the map found under part, or into a new map put there. */
  method StepInto(current: Obj, part: string, ghost own: set<Obj>, ghost t: Heap)
    returns (next: Obj, ghost own': set<Obj>, ghost t': Heap)
    requires current in own && current.body.MapBody? && SelfContained(own) && t == Bodies(own)
    modifies current
    ensures own <= own' && fresh(own' - own) && next in own' && SelfContained(own') && t' == Bodies(own')
    ensures IsStep(t, current, part, t', next)
    ensures next.body.MapBody? && current.body.MapBody?
  {
    own' := own;
    var entries := current.body.entries;
    if part !in entries {
      var created := new Obj(MapBody(map[]));
      own' := own' + {created};
      current.body := MapBody(entries[part := Ref(created)]);
    }
    var found := current.body.entries[part];
    if found.Ref? && found.obj.body.MapBody? {
      next := found.obj;
    } else {
      next := new Obj(MapBody(map[]));
      own' := own' + {next};
      current.body := MapBody(current.body.entries[part := Ref(next)]);
    }
    t' := Bodies(own');
  }

  /** Each place is one step below the one before. */
  ghost predicate IsWalk(parts: Path, places: seq<Place>) {
    && 0 < |places| <= |parts|
    && forall i {:trigger WalkStep(parts, places, i)} :: 0 <= i < |places| - 1 ==> WalkStep(parts, places, i)
  }

  ghost predicate WalkStep(parts: Path, places: seq<Place>, i: nat) {
    i < |places| - 1 && i < |parts|
      && IsStep(places[i].heap, places[i].cur, parts[i], places[i + 1].heap, places[i + 1].cur)
  }

  lemma WalkLonger(parts: Path, places: seq<Place>, place: Place)
    requires IsWalk(parts, places) && |places| < |parts|
    requires var last := places[|places| - 1]; IsStep(last.heap, last.cur, parts[|places| - 1], place.heap, place.cur)
    ensures IsWalk(parts, places + [place])
  {
    forall i | 0 <= i < |places| ensures WalkStep(parts, places + [place], i) {
      if i < |places| - 1 { assert WalkStep(parts, places, i); }
    }
  }

  /** A walk along all parts but the last, and then the last entry set: the insertion at the path. */
  lemma {:induction false} WalkInserts(parts: Path, places: seq<Place>, i: nat, x: Val, copies: Heap, t': Heap)
    requires IsWalk(parts, places) && |places| == |parts| && i < |parts|
    requires var last := places[|places| - 1];
      Inserts(last.heap, last.cur, [parts[|parts| - 1]], x, copies, t', [])
    ensures Inserts(places[i].heap, places[i].cur, parts[i..], x, copies, t', places[i + 1..])
    decreases |parts| - i
  {
    if i < |parts| - 1 {
      assert WalkStep(parts, places, i);
      WalkInserts(parts, places, i + 1, x, copies, t');
      assert parts[i..][1..] == parts[i + 1..] && places[i + 1..][1..] == places[i + 2..];
    } else {
      assert parts[i..] == [parts[i]] && places[i + 1..] == [];
    }
  }

  /** Walks to the map that will hold the last part, creating maps on the way. */
  method Descend(nested: Obj, parts: Path, ghost own0: set<Obj>, ghost t0: Heap)
    returns (current: Obj, ghost own: set<Obj>, ghost t: Heap, ghost places: seq<Place>)
    requires parts != [] && nested in own0 && nested.body.MapBody? && SelfContained(own0) && t0 == Bodies(own0)
    modifies own0
    ensures own0 <= own && fresh(own - own0) && SelfContained(own) && t == Bodies(own)
    ensures current in own && current.body.MapBody? && nested.body.MapBody?
    ensures IsWalk(parts, places) && |places| == |parts| && places[0] == Place(t0, nested)
    ensures places[|places| - 1] == Place(t, current)
  {
    current, own, t, places := nested, own0, t0, [Place(t0, nested)];
    for i := 0 to |parts| - 1
      invariant own0 <= own && fresh(own - own0) && SelfContained(own) && t == Bodies(own)
      invariant current in own && current.body.MapBody? && nested.body.MapBody?
      invariant IsWalk(parts, places) && |places| == i + 1 && places[0] == Place(t0, nested)
      invariant places[i] == Place(t, current)
    {
      current, own, t := StepInto(current, parts[i], own, t);
      WalkLonger(parts, places, Place(t, current));
      places := places + [Place(t, current)];
    }
  }

  // ---- The copy at the end of the path ----

  /** A deep copy refers only to its own objects. */
  lemma CopySelfContained(h: Heap, src: Val, m: map<Obj, Obj>, r: Val, own: set<Obj>)
    requires SelfContained(own) && own !! m.Values && IsDeepCopy(h, src, m, r, Bodies(m.Values))
    ensures SelfContained(own + m.Values) && ValIn(r, own + m.Values)
  {
  }

  /** Puts a deep copy of value under a name of the map current. */
  method PutCopy(current: Obj, name: string, value: Val, ghost h: Heap, ghost own0: set<Obj>, ghost t0: Heap)
    returns (ghost own: set<Obj>, ghost t: Heap, ghost m: map<Obj, Obj>, ghost x: Val, ghost copies: Heap)
    requires Closed(h) && Snapshot(h) && ValIn(value, h.Keys) && own0 !! h.Keys
    requires current in own0 && current.body.MapBody? && SelfContained(own0) && t0 == Bodies(own0)
    modifies current
    ensures Snapshot(h) && own == own0 + m.Values && fresh(m.Values) && SelfContained(own) && current.body.MapBody?
    ensures t == Bodies(own) && IsDeepCopy(h, value, m, x, copies) && Inserts(t0, current, [name], x, copies, t, [])
  {
    var copied;
    copied, m := DeepCopy(value, h);
    own, x, copies := own0 + m.Values, copied, Bodies(m.Values);
    CopySelfContained(h, value, m, copied, own0);
    SetEntry(current, name, copied, own);
    t := Bodies(own);
    EntrySet(t0, copies, current, name, x, t);
  }

  lemma EntrySet(t0: Heap, copies: Heap, current: Obj, name: string, x: Val, t: Heap)
    requires current in t0 && t0[current].MapBody? && copies.Keys !! t0.Keys && t.Keys == t0.Keys + copies.Keys
    requires t[current] == MapBody(t0[current].entries[name := x])
    requires AgreeOn(copies, t, copies.Keys) && AgreeOn(t0, t, t0.Keys - {current})
    ensures Inserts(t0, current, [name], x, copies, t, [])
  {
    assert t == (t0 + copies)[current := MapBody(t0[current].entries[name := x])];
  }

  method SetEntry(current: Obj, name: string, value: Val, ghost own: set<Obj>)
    requires current in own && current.body.MapBody? && SelfContained(own) && ValIn(value, own)
    modifies current
    ensures SelfContained(own) && current.body == MapBody(old(current.body.entries)[name := value])
  {
    assert BodyIn(current.body, own);
    current.body := MapBody(current.body.entries[name := value]);
  }

  /** One flat entry: its value, deep copied, at the end of its path. */
  method InsertKey(nested: Obj, parts: Path, value: Val, ghost h: Heap, ghost own0: set<Obj>, ghost t0: Heap)
    returns (ghost own: set<Obj>, ghost t: Heap, ghost m: map<Obj, Obj>, ghost x: Val, ghost copies: Heap,
      ghost trace: seq<Place>)
    requires Closed(h) && Snapshot(h) && ValIn(value, h.Keys) && own0 !! h.Keys
    requires parts != [] && nested in own0 && nested.body.MapBody? && SelfContained(own0) && t0 == Bodies(own0)
    modifies own0
    ensures Snapshot(h) && own0 <= own && fresh(own - own0)
    ensures SelfContained(own) && nested.body.MapBody? && t == Bodies(own)
    ensures IsDeepCopy(h, value, m, x, copies) && Inserts(t0, nested, parts, x, copies, t, trace)
  {
    var current;
    ghost var own1, t1, places;
    current, own1, t1, places := Descend(nested, parts, own0, t0);
    own, t, m, x, copies := PutCopy(current, parts[|parts| - 1], value, h, own1, t1);
    WalkInserts(parts, places, 0, x, copies, t);
    trace := places[1..];
    assert parts[0..] == parts;
  }

  // ---- The view of prefix-free keys ----

  /** The leaf at k is the untouched copy of the value stored under k, and maps[k] says which object is whose copy. */
  ghost predicate Untouched(h: Heap, t: Heap, flat: map<string, Val>, shape: Shape, maps: map<string, map<Obj, Obj>>,
                            k: string) {
    match shape
    case Shape(_, leaf, region) =>
      var p := Split(k, '.');
      k in maps && k in flat && p in leaf && p in region && region[p] == maps[k].Values
      && IsDeepCopy(h, flat[k], maps[k], leaf[p], Restrict(t, maps[k].Values))
  }

  ghost predicate AllUntouched(h: Heap, t: Heap, flat: map<string, Val>, done: set<string>, shape: Shape,
                               maps: map<string, map<Obj, Obj>>) {
    maps.Keys == done && forall k :: k in done ==> Untouched(h, t, flat, shape, maps, k)
  }

  lemma CopySeenIn(h: Heap, v: Val, m: map<Obj, Obj>, r: Val, copied: Heap, t: Heap)
    requires IsDeepCopy(h, v, m, r, copied) && AgreeOn(copied, t, copied.Keys)
    ensures IsDeepCopy(h, v, m, r, Restrict(t, m.Values))
  {
  }

  /** The copy of a key that the new one does not cover is left alone. */
  lemma StaysUntouched(h: Heap, t: Heap, t': Heap, flat: map<string, Val>, shape: Shape, shape': Shape,
                       maps: map<string, map<Obj, Obj>>,
                       key: string, m: map<Obj, Obj>, k: string, kept: set<Path>)
    requires Untouched(h, t, flat, shape, maps, k) && Split(k, '.') in kept && k != key
    requires LeavesKept(t, t', shape.leaf, shape.region, shape'.leaf, shape'.region, kept)
    ensures Untouched(h, t', flat, shape', maps[key := m], k)
  {
    assert Restrict(t', maps[k].Values) == Restrict(t, maps[k].Values);
  }

  /** Of prefix-free keys no new one lies above one that is there. */
  lemma NotCovered(keys: set<string>, key: string, k: string)
    requires PrefixFree(keys) && key in keys && k in keys && k != key
    ensures !(Split(key, '.') <= Split(k, '.'))
  {
    OutsideKey(k, key);
  }

  lemma NewUntouched(h: Heap, t: Heap, t': Heap, flat: map<string, Val>, shape: Shape, maps: map<string, map<Obj, Obj>>,
                     key: string, m: map<Obj, Obj>, x: Val, copies: Heap, shape': Shape)
    requires key in flat && IsDeepCopy(h, flat[key], m, x, copies) && MakesLeaf(t, t', shape, key, x, copies, shape')
    ensures Untouched(h, t', flat, shape', maps[key := m], key)
  {
    CopySeenIn(h, flat[key], m, x, copies, t');
    assert copies.Keys == m.Values;
  }

  lemma OldUntouched(h: Heap, t: Heap, t': Heap, flat: map<string, Val>, shape: Shape, maps: map<string, map<Obj, Obj>>,
                     key: string, m: map<Obj, Obj>, x: Val, copies: Heap, shape': Shape, k: string)
    requires PrefixFree(flat.Keys) && key in flat && k != key && Untouched(h, t, flat, shape, maps, k)
    requires MakesLeaf(t, t', shape, key, x, copies, shape')
    ensures Untouched(h, t', flat, shape', maps[key := m], k)
  {
    NotCovered(flat.Keys, key, k);
    StaysUntouched(h, t, t', flat, shape, shape', maps, key, m, k, Outside(shape.leaf, Split(key, '.')));
  }

  /** One more key of keys that are prefix-free. */
  lemma UntouchedStep(h: Heap, t: Heap, t': Heap, flat: map<string, Val>, done: set<string>, shape: Shape,
                      maps: map<string, map<Obj, Obj>>,
                      key: string, m: map<Obj, Obj>, x: Val, copies: Heap, shape': Shape)
    requires PrefixFree(flat.Keys) && key in flat && key !in done && Untouched(h, t', flat, shape', maps[key := m], key)
    requires AllUntouched(h, t, flat, done, shape, maps) && MakesLeaf(t, t', shape, key, x, copies, shape')
    ensures AllUntouched(h, t', flat, done + {key}, shape', maps[key := m])
  {
    assert maps[key := m].Keys == done + {key};
    forall k | k in done + {key} ensures Untouched(h, t', flat, shape', maps[key := m], k) {
      if k != key {
        assert Untouched(h, t, flat, shape, maps, k);
        OldUntouched(h, t, t', flat, shape, maps, key, m, x, copies, shape', k);
      }
    }
  }

  /** For prefix-free keys the view has one map for every proper prefix of a key and one leaf for every key. */
  lemma PrefixFreeView(h: Heap, t: Heap, flat: map<string, Val>, nested: Obj, shape: Shape,
                       maps: map<string, map<Obj, Obj>>)
    requires PrefixFree(flat.Keys) && Shaped(t, nested, flat.Keys, shape)
    requires AllUntouched(h, t, flat, flat.Keys, shape, maps)
    ensures IsView(h, t, flat, flat.Keys, nested, shape.at, shape.leaf, maps)
  {
    assert Minimal(flat.Keys) == flat.Keys;
    forall k | k in flat ensures LeafCopied(h, t, flat[k], maps[k], shape.leaf[Split(k, '.')], shape.at) {
      assert Untouched(h, t, flat, shape, maps, k);
      assert RegionAt(t, shape.at, shape.leaf[Split(k, '.')], shape.region[Split(k, '.')]);
    }
  }

  // ---- The whole view ----

  /** What is known of the view after the keys in order. */
  ghost predicate ViewSoFar(h: Heap, t: Heap, flat: map<string, Val>, order: seq<string>, nested: Obj, shape: Shape,
                            maps: map<string, map<Obj, Obj>>) {
    && Elements(order) <= flat.Keys && IsResult(h, t, flat, order, nested, shape)
    && (PrefixFree(flat.Keys) ==> AllUntouched(h, t, flat, Elements(order), shape, maps))
  }

  lemma ViewStep(h: Heap, t: Heap, t': Heap, flat: map<string, Val>, order: seq<string>, nested: Obj, shape: Shape,
                 maps: map<string, map<Obj, Obj>>,
                 key: string, m: map<Obj, Obj>, x: Val, copies: Heap, trace: seq<Place>)
    returns (shape': Shape)
    requires ViewSoFar(h, t, flat, order, nested, shape, maps) && key in flat && key !in order
    requires IsDeepCopy(h, flat[key], m, x, copies) && Inserts(t, nested, Split(key, '.'), x, copies, t', trace)
    ensures ViewSoFar(h, t', flat, order + [key], nested, shape', maps[key := m])
  {
    shape' := ResultStep(h, flat, t, t', nested, order, shape, key, m, x, copies, trace);
    ElementsAppend(order, key);
    if PrefixFree(flat.Keys) {
      assert forall a :: a in order ==> a in Elements(order);
      NewUntouched(h, t, t', flat, shape, maps, key, m, x, copies, shape');
      UntouchedStep(h, t, t', flat, Elements(order), shape, maps, key, m, x, copies, shape');
    }
  }

  lemma ViewStart(h: Heap, t: Heap, flat: map<string, Val>, nested: Obj)
    requires t == map[nested := MapBody(map[])]
    ensures ViewSoFar(h, t, flat, [], nested, Shape(map[[] := nested], map[], map[]), map[])
  {
    EmptyResult(h, flat, t, nested);
  }

  /**
   A fresh nested view of the entries, inserted in the given order: everything in it is new, and for
   prefix-free keys it is the tree of the copies of all values, whatever the order.
   */
  method Unflatten(flat: map<string, Val>, order: seq<string>, ghost h: Heap)
    returns (nested: Obj, ghost own: set<Obj>, ghost t: Heap, ghost shape: Shape,
      ghost maps: map<string, map<Obj, Obj>>)
    requires Closed(h) && Snapshot(h) && forall k :: k in flat ==> ValIn(flat[k], h.Keys)
    requires IsOrder(flat, order)
    ensures Snapshot(h) && fresh(own) && nested in own && nested.body.MapBody? && SelfContained(own) && t == Bodies(own)
    ensures IsResult(h, t, flat, order, nested, shape)
    ensures PrefixFree(flat.Keys) ==> IsView(h, t, flat, flat.Keys, nested, shape.at, shape.leaf, maps)
  {
    nested := new Obj(MapBody(map[]));
    own, shape, maps := {nested}, Shape(map[[] := nested], map[], map[]), map[];
    t := Bodies(own);
    ViewStart(h, t, flat, nested);
    for i := 0 to |order|
      invariant Snapshot(h) && fresh(own) && nested in own && nested.body.MapBody? && SelfContained(own)
      invariant t == Bodies(own)
      invariant ViewSoFar(h, t, flat, order[..i], nested, shape, maps)
    {
      own, t, shape, maps := AddKey(nested, flat, order, i, h, own, t, shape, maps);
    }
    ViewDone(h, t, flat, order, nested, shape, maps);
  }

  /** The next entry of the flat map. */
  method AddKey(nested: Obj, flat: map<string, Val>, order: seq<string>, i: nat, ghost h: Heap, ghost own0: set<Obj>,
                ghost t0: Heap, ghost shape0: Shape, ghost maps0: map<string, map<Obj, Obj>>)
    returns (ghost own: set<Obj>, ghost t: Heap, ghost shape: Shape, ghost maps: map<string, map<Obj, Obj>>)
    requires Closed(h) && Snapshot(h) && IsOrder(flat, order) && i < |order| && own0 !! h.Keys
    requires order[i] in flat ==> ValIn(flat[order[i]], h.Keys)
    requires nested in own0 && nested.body.MapBody? && SelfContained(own0) && t0 == Bodies(own0)
    requires ViewSoFar(h, t0, flat, order[..i], nested, shape0, maps0)
    modifies own0
    ensures Snapshot(h) && own0 <= own && fresh(own - own0) && SelfContained(own) && nested.body.MapBody?
    ensures t == Bodies(own) && ViewSoFar(h, t, flat, order[..i + 1], nested, shape, maps)
  {
    NextKey(order, i);
    var key := order[i];
    ghost var m, x, copies, trace;
    own, t, m, x, copies, trace := InsertKey(nested, Split(key, '.'), flat[key], h, own0, t0);
    shape := ViewStep(h, t0, t, flat, order[..i], nested, shape0, maps0, key, m, x, copies, trace);
    maps := maps0[key := m];
  }

  lemma ViewDone(h: Heap, t: Heap, flat: map<string, Val>, order: seq<string>, nested: Obj, shape: Shape,
                 maps: map<string, map<Obj, Obj>>)
    requires IsOrder(flat, order) && ViewSoFar(h, t, flat, order[..|order|], nested, shape, maps)
    ensures IsResult(h, t, flat, order, nested, shape)
    ensures PrefixFree(flat.Keys) ==> IsView(h, t, flat, flat.Keys, nested, shape.at, shape.leaf, maps)
  {
    assert order[..|order|] == order;
    if PrefixFree(flat.Keys) { PrefixFreeView(h, t, flat, nested, shape, maps); }
  }

  lemma NextKey(order: seq<string>, i: nat)
    requires NoDup(order) && i < |order|
    ensures order[i] in Elements(order) && order[i] !in order[..i] && order[..i + 1] == order[..i] + [order[i]]
  {
  }

  /** The orders end with b below a, once after a and once before, and the two values disagree. */
  ghost predicate Disagreeing(h: Heap, flat: map<string, Val>, order: seq<string>, order': seq<string>,
                              rest: seq<string>, a: string, b: string) {
    && order == rest + [a] + [b] && order' == rest + [b] + [a]
    && a in flat && b in flat && IsBelow(b, a) && !Agrees(h, flat, a, b) && IsMinimal(flat.Keys, a)
  }

  lemma OrderDecides(h: Heap, flat: map<string, Val>, t: Heap, order: seq<string>, n: Obj, s: Shape, t': Heap,
                     order': seq<string>, n': Obj, s': Shape,
                     rest: seq<string>, a: string, b: string)
    requires IsResult(h, t, flat, order, n, s) && IsResult(h, t', flat, order', n', s')
    requires Elements(order) == flat.Keys && Elements(order') == flat.Keys
    ensures Consistent(h, flat) ==> Same(t, Ref(n), t', Ref(n'))
    ensures Disagreeing(h, flat, order, order', rest, a, b) ==> !Same(t, Ref(n), t', Ref(n'))
  {
    if Consistent(h, flat) { OrderIsIrrelevant(h, flat, t, order, n, s, t', order', n', s'); }
    if Disagreeing(h, flat, order, order', rest, a, b) { OrderMatters(h, flat, rest, a, b, t, n, s, t', n', s'); }
  }

  /** Two reads of one state that meet its keys in two orders, and when a reader can tell the views apart. */
  method ReadTwice(flat: map<string, Val>, order: seq<string>, order': seq<string>, ghost h: Heap,
                   ghost rest: seq<string>, ghost a: string, ghost b: string)
    returns (nested: Obj, nested': Obj, ghost own: set<Obj>, ghost own': set<Obj>)
    requires Closed(h) && Snapshot(h) && forall k :: k in flat ==> ValIn(flat[k], h.Keys)
    requires IsOrder(flat, order) && IsOrder(flat, order')
    ensures nested in own && nested' in own' && own !! own'
    ensures Consistent(h, flat) ==> Same(Bodies(own), Ref(nested), Bodies(own'), Ref(nested'))
    ensures Disagreeing(h, flat, order, order', rest, a, b) ==>
      !Same(Bodies(own), Ref(nested), Bodies(own'), Ref(nested'))
  {
    ghost var t, t', s, s', maps;
    nested, own, t, s, maps := Unflatten(flat, order, h);
    nested', own', t', s', maps := Unflatten(flat, order', h);
    assert t == Bodies(own);
    OrderDecides(h, flat, t, order, nested, s, t', order', nested', s', rest, a, b);
  }
}
