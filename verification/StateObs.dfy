/**
 What a reader can tell about values on a heap: which paths exist, and of what kind the values there
 are. And what the change of one map entry changes for a reader.
 */
module StateObs {
  import opened Prelude
  import opened DeepCopies
  import opened StateTree

  datatype Kind = NilKind | ScalarKind(text: string) | MapKind | SliceKind | NoObject

  function KindOf(t: Heap, v: Val): Kind {
    match v
    case Nil => NilKind
    case Scalar(text) => ScalarKind(text)
    case Ref(o) => if o !in t then NoObject else if t[o].MapBody? then MapKind else SliceKind
  }

  /** What is found at the end of a path of keys and indexes, if the path exists. */
  function Obs(t: Heap, v: Val, q: seq<Access>): Option<Kind> {
    match Follow(t, v, q)
    case None => None
    case Some(w) => Some(KindOf(t, w))
  }

  /** A reader cannot tell the two values apart. */
  ghost predicate Same(t: Heap, v: Val, t': Heap, w: Val) {
    forall q :: Obs(t, v, q) == Obs(t', w, q)
  }

  /**
   A path leads nowhere in both values, or in both to what is alike: nil, one scalar, two maps, two slices,
   or two references without an object.
   */
  ghost predicate AlikeAt(t: Heap, v: Val, t': Heap, w: Val, q: seq<Access>) {
    match (Follow(t, v, q), Follow(t', w, q))
    case (None, None) => true
    case (Some(Nil), Some(Nil)) => true
    case (Some(Scalar(x)), Some(Scalar(y))) => x == y
    case (Some(Ref(o)), Some(Ref(p))) =>
      (o in t <==> p in t') && (o in t && p in t' ==> (t[o].MapBody? <==> t'[p].MapBody?))
    case _ => false
  }

  /** A reader cannot tell two values apart exactly if every path finds alike in them. */
  lemma SameMeans(t: Heap, v: Val, t': Heap, w: Val)
    ensures Same(t, v, t', w) <==> forall q :: AlikeAt(t, v, t', w, q)
  {
    forall q ensures Obs(t, v, q) == Obs(t', w, q) <==> AlikeAt(t, v, t', w, q) {}
    if !Same(t, v, t', w) {
      var q :| Obs(t, v, q) != Obs(t', w, q);
      assert !AlikeAt(t, v, t', w, q);
    }
  }

  lemma ObsAppend(t: Heap, v: Val, p: seq<Access>, q: seq<Access>)
    ensures Obs(t, v, p + q) == match Follow(t, v, p) case None => None case Some(w) => Obs(t, w, q)
  {
    FollowAppend(t, v, p, q);
  }

  lemma SameTransitive(t: Heap, v: Val, t': Heap, v': Val, t'': Heap, v'': Val)
    requires Same(t, v, t', v') && Same(t', v', t'', v'')
    ensures Same(t, v, t'', v'')
  {
    forall q ensures Obs(t, v, q) == Obs(t'', v'', q) { assert Obs(t, v, q) == Obs(t', v', q); }
  }

  // ---- Closed regions ----

  /** Objects of the region refer only to objects of the region. */
  ghost predicate IsRegion(t: Heap, r: set<Obj>) {
    forall o :: o in r ==> o in t && BodyIn(t[o], r)
  }

  ghost predicate AgreeOn(t: Heap, t': Heap, r: set<Obj>) {
    forall o :: o in r ==> o in t && o in t' && t'[o] == t[o]
  }

  lemma {:induction false} RegionFollow(t: Heap, t': Heap, r: set<Obj>, v: Val, q: seq<Access>)
    requires IsRegion(t, r) && AgreeOn(t, t', r) && ValIn(v, r)
    ensures Follow(t', v, q) == Follow(t, v, q)
    ensures Follow(t, v, q).Some? ==> ValIn(Follow(t, v, q).value, r)
    decreases |q|
  {
    if q != [] && v.Ref? {
      assert BodyIn(t[v.obj], r);
      match (t[v.obj], q[0])
      case (MapBody(entries), Key(k)) => if k in entries { RegionFollow(t, t', r, entries[k], q[1..]); }
      case (SliceBody(elems), Index(i)) => if i < |elems| { RegionFollow(t, t', r, elems[i], q[1..]); }
      case _ =>
    }
  }

  /** A value in a region that stays as it is looks the same. */
  lemma RegionSame(t: Heap, t': Heap, r: set<Obj>, v: Val)
    requires IsRegion(t, r) && AgreeOn(t, t', r) && ValIn(v, r)
    ensures Same(t, v, t', v)
  {
    forall q ensures Obs(t, v, q) == Obs(t', v, q) { RegionFollow(t, t', r, v, q); }
  }

  // ---- One entry of a map is set ----

  /** In the region r, only the entry name of the map o changes: it is set to w. */
  ghost predicate SetsEntry(t: Heap, t': Heap, r: set<Obj>, o: Obj, name: string, w: Val) {
    && IsRegion(t, r) && o in r && t[o].MapBody? && AgreeOn(t, t', r - {o})
    && o in t' && t'[o] == MapBody(t[o].entries[name := w])
  }

  function Entry(t: Heap, o: Obj, name: string): Option<Val>
    requires o in t && t[o].MapBody?
  {
    if name in t[o].entries then Some(t[o].entries[name]) else None
  }

  /** w looks in t' like the entry that it replaces did in t. */
  ghost predicate LooksLike(t: Heap, was: Option<Val>, t': Heap, w: Val) {
    was.Some? && Same(t, was.value, t', w)
  }

  /** An entry that is replaced by a value that looks the same changes nothing for a reader. */
  lemma {:induction false} InvisibleAt(t: Heap, t': Heap, r: set<Obj>, o: Obj, name: string, w: Val, v: Val,
                                       q: seq<Access>)
    requires SetsEntry(t, t', r, o, name, w) && LooksLike(t, Entry(t, o, name), t', w) && ValIn(v, r)
    ensures Obs(t', v, q) == Obs(t, v, q)
    decreases |q|
  {
    if v.Ref? && q != [] {
      assert BodyIn(t[v.obj], r);
      match (t[v.obj], q[0])
      case (MapBody(entries), Key(k)) =>
        if v.obj == o && k == name {
          assert Obs(t, entries[k], q[1..]) == Obs(t', w, q[1..]);
        } else if k in entries {
          InvisibleAt(t, t', r, o, name, w, entries[k], q[1..]);
        }
      case (SliceBody(elems), Index(i)) => if i < |elems| { InvisibleAt(t, t', r, o, name, w, elems[i], q[1..]); }
      case _ =>
    }
  }

  /** The path leads to the entry name of o for the first time at its end. */
  ghost predicate FirstUse(t: Heap, v: Val, p: Path, o: Obj, name: string) {
    && p != [] && p[|p| - 1] == name && Follow(t, v, KeyPath(p[..|p| - 1])) == Some(Ref(o))
    && forall i :: 0 <= i < |p| - 1 && p[i] == name ==> Follow(t, v, KeyPath(p[..i])) != Some(Ref(o))
  }

  /** Until then the change is not met. */
  lemma {:induction false} NotYet(t: Heap, t': Heap, r: set<Obj>, o: Obj, name: string, w: Val, v: Val, p: Path, n: nat)
    requires SetsEntry(t, t', r, o, name, w) && ValIn(v, r) && n < |p|
    requires forall i :: 0 <= i < n && p[i] == name ==> Follow(t, v, KeyPath(p[..i])) != Some(Ref(o))
    requires Follow(t, v, KeyPath(p[..n])).Some?
    ensures Follow(t', v, KeyPath(p[..n])) == Follow(t, v, KeyPath(p[..n]))
  {
    if n > 0 {
      assert KeyPath(p[..n]) == KeyPath(p[..n - 1]) + [Key(p[n - 1])];
      FollowAppend(t, v, KeyPath(p[..n - 1]), [Key(p[n - 1])]);
      FollowAppend(t', v, KeyPath(p[..n - 1]), [Key(p[n - 1])]);
      NotYet(t, t', r, o, name, w, v, p, n - 1);
      RegionFollow(t, t, r, v, KeyPath(p[..n - 1]));
      var x := Follow(t, v, KeyPath(p[..n - 1])).value;
      assert [Key(p[n - 1])][1..] == [];
      if x.Ref? { assert x.obj in r; }
    } else {
      assert KeyPath(p[..0]) == [];
    }
  }

  lemma FirstUseFinds(t: Heap, t': Heap, r: set<Obj>, o: Obj, name: string, w: Val, v: Val, p: Path)
    requires SetsEntry(t, t', r, o, name, w) && ValIn(v, r) && FirstUse(t, v, p, o, name)
    ensures Follow(t', v, KeyPath(p)) == Some(w)
    ensures Follow(t, v, KeyPath(p)) == Entry(t, o, name)
  {
    var n := |p| - 1;
    NotYet(t, t', r, o, name, w, v, p, n);
    assert KeyPath(p) == KeyPath(p[..n]) + [Key(name)];
    FollowAppend(t, v, KeyPath(p[..n]), [Key(name)]);
    FollowAppend(t', v, KeyPath(p[..n]), [Key(name)]);
    FollowKey(t, o, name);
    FollowKey(t', o, name);
  }

  /** If the path leads to the entry at all, some prefix of it does for the first time. */
  lemma {:induction false} FirstUseExists(t: Heap, v: Val, p: Path, o: Obj, name: string) returns (n: nat)
    requires p != [] && p[|p| - 1] == name && Follow(t, v, KeyPath(p[..|p| - 1])) == Some(Ref(o))
    ensures n <= |p| && FirstUse(t, v, p[..n], o, name)
    decreases |p|
  {
    if i :| 0 <= i < |p| - 1 && p[i] == name && Follow(t, v, KeyPath(p[..i])) == Some(Ref(o)) {
      var shorter := p[..i + 1];
      assert shorter[..i] == p[..i];
      n := FirstUseExists(t, v, shorter, o, name);
      assert shorter[..n] == p[..n];
    } else {
      n := |p|;
      assert p[..n] == p;
    }
  }

  /**
   A reader of v, which leads by p to the map whose entry is set, notices nothing if and only if the new
   value looks like the entry it replaces.
   */
  lemma InvisibleIff(t: Heap, t': Heap, r: set<Obj>, o: Obj, name: string, w: Val, v: Val, p: Path)
    requires SetsEntry(t, t', r, o, name, w) && ValIn(v, r) && Follow(t, v, KeyPath(p)) == Some(Ref(o))
    ensures Same(t, v, t', v) <==> LooksLike(t, Entry(t, o, name), t', w)
  {
    if LooksLike(t, Entry(t, o, name), t', w) {
      forall q ensures Obs(t, v, q) == Obs(t', v, q) { InvisibleAt(t, t', r, o, name, w, v, q); }
    }
    if Same(t, v, t', v) {
      var full := p + [name];
      assert full[..|full| - 1] == p;
      var n := FirstUseExists(t, v, full, o, name);
      FirstUseFinds(t, t', r, o, name, w, v, full[..n]);
      SameThere(t, t', v, full[..n], Entry(t, o, name), w);
    }
  }

  lemma SameThere(t: Heap, t': Heap, v: Val, p: Path, was: Option<Val>, w: Val)
    requires Same(t, v, t', v) && Follow(t, v, KeyPath(p)) == was && Follow(t', v, KeyPath(p)) == Some(w)
    ensures LooksLike(t, was, t', w)
  {
    assert Obs(t, v, KeyPath(p)) == Obs(t', v, KeyPath(p));
    forall q ensures Obs(t, was.value, q) == Obs(t', w, q) {
      ObsAppend(t, v, KeyPath(p), q);
      ObsAppend(t', v, KeyPath(p), q);
      assert Obs(t, v, KeyPath(p) + q) == Obs(t', v, KeyPath(p) + q);
    }
  }
}
