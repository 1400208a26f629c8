/** Inserting a value at a path of nested maps, and what that does to the tree of the maps. */
module StateInsert {
  import opened Prelude
  import opened DeepCopies
  import opened StateTree
  import opened StateObs

  // ---- The walk along the path, on heaps ----

  /** One step down: into the map found under part, or into a new map put there. */
  ghost predicate IsStep(t: Heap, cur: Obj, part: string, t': Heap, next: Obj) {
    && cur in t && t[cur].MapBody?
    && var entries := t[cur].entries;
       if part in entries && IsMap(t, entries[part]) then t' == t && next == entries[part].obj
       else next !in t && t' == t[next := MapBody(map[])][cur := MapBody(entries[part := Ref(next)])]
  }

  datatype Place = Place(heap: Heap, cur: Obj)

  /** Walking down all parts but the last from cur, and setting the last to x, whose own objects are copies. */
  ghost predicate Inserts(t: Heap, cur: Obj, parts: Path, x: Val, copies: Heap, t': Heap, trace: seq<Place>)
    decreases |parts|
  {
    && parts != [] && cur in t && t[cur].MapBody?
    && if |parts| == 1 then
         trace == [] && copies.Keys !! t.Keys && t' == (t + copies)[cur := MapBody(t[cur].entries[parts[0] := x])]
       else
         && trace != [] && IsStep(t, cur, parts[0], trace[0].heap, trace[0].cur)
         && Inserts(trace[0].heap, trace[0].cur, parts[1..], x, copies, t', trace[1..])
  }

  /** The copies are a region of their own that holds x. */
  ghost predicate OwnCopies(copies: Heap, x: Val) {
    IsRegion(copies, copies.Keys) && ValIn(x, copies.Keys)
  }

  // ---- Into a region ----

  /** Inserted below a new empty map, everything stays in new objects. */
  lemma {:induction false} InsertFresh(t: Heap, f: set<Obj>, cur: Obj, parts: Path, x: Val, copies: Heap, t': Heap,
                                       trace: seq<Place>)
    returns (f': set<Obj>)
    requires IsRegion(t, f) && cur in f && Inserts(t, cur, parts, x, copies, t', trace) && OwnCopies(copies, x)
    ensures f <= f' && f' - f !! t.Keys && IsRegion(t', f') && AgreeOn(t, t', t.Keys - f) && t.Keys <= t'.Keys
    ensures cur in t' && t'[cur].MapBody?
    decreases |parts|
  {
    if |parts| == 1 {
      f' := f + copies.Keys;
      forall o | o in f' ensures o in t' && BodyIn(t'[o], f') {
        if o in copies { assert BodyIn(copies[o], copies.Keys); } else { assert BodyIn(t[o], f); }
      }
    } else {
      var u, next := trace[0].heap, trace[0].cur;
      var g := f + {next};
      assert BodyIn(t[cur], f);
      forall o | o in g ensures o in u && BodyIn(u[o], g) {
        if o in f { assert BodyIn(t[o], f); }
      }
      f' := InsertFresh(u, g, next, parts[1..], x, copies, t', trace[1..]);
      InsertKeepsMaps(u, next, parts[1..], x, copies, t', trace[1..], cur);
    }
  }

  /** Maps stay maps. */
  lemma {:induction false} InsertKeepsMaps(t: Heap, cur: Obj, parts: Path, x: Val, copies: Heap, t': Heap,
                                           trace: seq<Place>, o: Obj)
    requires Inserts(t, cur, parts, x, copies, t', trace) && o in t && t[o].MapBody?
    ensures o in t' && t'[o].MapBody?
    decreases |parts|
  {
    if |parts| > 1 {
      InsertKeepsMaps(trace[0].heap, trace[0].cur, parts[1..], x, copies, t', trace[1..], o);
    }
  }

  /**
   Inserted at the path rest below a map of the region r, which v leads to by p: the change stays in the
   region and new objects, and a reader of v notices nothing if and only if what he found by p and rest
   looks like x.
   */
  lemma {:induction false} InsertRegion(t: Heap, r: set<Obj>, v: Val, p: Path, cur: Obj, rest: Path, x: Val,
                                        copies: Heap, t': Heap, trace: seq<Place>)
    returns (r': set<Obj>)
    requires IsRegion(t, r) && ValIn(v, r) && cur in r && Follow(t, v, KeyPath(p)) == Some(Ref(cur))
    requires Inserts(t, cur, rest, x, copies, t', trace) && OwnCopies(copies, x)
    ensures r <= r' && r' - r !! t.Keys && IsRegion(t', r') && AgreeOn(t, t', t.Keys - r) && t.Keys <= t'.Keys
    ensures Same(t, v, t', v) <==> LooksLike(t, Follow(t, v, KeyPath(p + rest)), copies, x)
    decreases |rest|
  {
    if |rest| == 1 {
      r' := r + copies.Keys;
      assert BodyIn(t[cur], r);
      forall o | o in r' ensures o in t' && BodyIn(t'[o], r') {
        if o in copies { assert BodyIn(copies[o], copies.Keys); } else { assert BodyIn(t[o], r); }
      }
      SetLast(t, r, v, p, cur, rest[0], x, copies, t');
      assert rest == [rest[0]];
    } else {
      var u, next := trace[0].heap, trace[0].cur;
      var entries := t[cur].entries;
      assert BodyIn(t[cur], r);
      assert p + rest == (p + [rest[0]]) + rest[1..];
      StepFollow(t, v, p, cur, rest[0]);
      if rest[0] in entries && IsMap(t, entries[rest[0]]) {
        r' := InsertRegion(t, r, v, p + [rest[0]], next, rest[1..], x, copies, t', trace[1..]);
      } else {
        r' := InsertBelowNew(t, r, v, p, cur, rest, x, copies, t', trace);
      }
    }
  }

  lemma StepFollow(t: Heap, v: Val, p: Path, cur: Obj, name: string)
    requires Follow(t, v, KeyPath(p)) == Some(Ref(cur)) && cur in t && t[cur].MapBody?
    ensures Follow(t, v, KeyPath(p + [name])) == Entry(t, cur, name)
  {
    assert KeyPath(p + [name]) == KeyPath(p) + [Key(name)];
    FollowAppend(t, v, KeyPath(p), [Key(name)]);
    FollowKey(t, cur, name);
  }

  lemma SetLast(t: Heap, r: set<Obj>, v: Val, p: Path, cur: Obj, name: string, x: Val, copies: Heap, t': Heap)
    requires IsRegion(t, r) && ValIn(v, r) && cur in r && t[cur].MapBody? && Follow(t, v, KeyPath(p)) == Some(Ref(cur))
    requires copies.Keys !! t.Keys && t' == (t + copies)[cur := MapBody(t[cur].entries[name := x])]
    requires OwnCopies(copies, x)
    ensures Same(t, v, t', v) <==> LooksLike(t, Follow(t, v, KeyPath(p + [name])), copies, x)
  {
    InvisibleIff(t, t', r, cur, name, x, v, p);
    StepFollow(t, v, p, cur, name);
    RegionSame(copies, t', copies.Keys, x);
    LooksTransfer(t, Entry(t, cur, name), copies, x, t', x);
  }

  lemma LooksTransfer(t: Heap, was: Option<Val>, t': Heap, w: Val, t'': Heap, w': Val)
    requires Same(t', w, t'', w')
    ensures LooksLike(t, was, t', w) <==> LooksLike(t, was, t'', w')
  {
    if was.Some? {
      forall q ensures Obs(t', w, q) == Obs(t'', w', q) {}
    }
  }

  /** Where no map is found a new one is put, and a reader notices; nor had he found anything below. */
  lemma InsertBelowNew(t: Heap, r: set<Obj>, v: Val, p: Path, cur: Obj, rest: Path, x: Val, copies: Heap, t': Heap,
                       trace: seq<Place>)
    returns (r': set<Obj>)
    requires IsRegion(t, r) && ValIn(v, r) && cur in r && Follow(t, v, KeyPath(p)) == Some(Ref(cur)) && |rest| > 1
    requires Inserts(t, cur, rest, x, copies, t', trace) && OwnCopies(copies, x)
    requires !(rest[0] in t[cur].entries && IsMap(t, t[cur].entries[rest[0]]))
    ensures r <= r' && r' - r !! t.Keys && IsRegion(t', r') && AgreeOn(t, t', t.Keys - r) && t.Keys <= t'.Keys
    ensures !Same(t, v, t', v) && !LooksLike(t, Follow(t, v, KeyPath(p + rest)), copies, x)
  {
    var u, next := trace[0].heap, trace[0].cur;
    assert BodyIn(t[cur], r);
    var f := InsertFresh(u, {next}, next, rest[1..], x, copies, t', trace[1..]);
    r' := r + f;
    forall o | o in r' ensures o in t' && BodyIn(t'[o], r') {
      if o in f { assert BodyIn(t'[o], f); } else { assert BodyIn(t[o], r); }
    }
    NewMapIsSeen(t, r, v, p, cur, rest[0], next, t');
    NothingBelowEntry(t, v, p, cur, rest);
  }

  lemma NewMapIsSeen(t: Heap, r: set<Obj>, v: Val, p: Path, cur: Obj, name: string, next: Obj, t': Heap)
    requires IsRegion(t, r) && ValIn(v, r) && cur in r && t[cur].MapBody? && Follow(t, v, KeyPath(p)) == Some(Ref(cur))
    requires !(name in t[cur].entries && IsMap(t, t[cur].entries[name])) && AgreeOn(t, t', r - {cur})
    requires cur in t' && t'[cur] == MapBody(t[cur].entries[name := Ref(next)]) && next in t' && t'[next].MapBody?
    ensures !Same(t, v, t', v)
  {
    InvisibleIff(t, t', r, cur, name, Ref(next), v, p);
    assert Obs(t', Ref(next), []) == Some(MapKind);
    if name in t[cur].entries { assert Obs(t, t[cur].entries[name], []) != Some(MapKind); }
  }

  lemma NothingBelowEntry(t: Heap, v: Val, p: Path, cur: Obj, rest: Path)
    requires Follow(t, v, KeyPath(p)) == Some(Ref(cur)) && cur in t && t[cur].MapBody? && |rest| > 1
    requires !(rest[0] in t[cur].entries && IsMap(t, t[cur].entries[rest[0]]))
    ensures Follow(t, v, KeyPath(p + rest)) == None
  {
    StepFollow(t, v, p, cur, rest[0]);
    assert KeyPath(p + rest) == KeyPath(p + [rest[0]]) + KeyPath(rest[1..]);
    FollowAppend(t, v, KeyPath(p + [rest[0]]), KeyPath(rest[1..]));
    if rest[0] in t[cur].entries { FollowStops(t, t[cur].entries[rest[0]], rest[1..]); }
  }
}
