/** What a reader finds in the nested view of the state. */
module StateLookup {
  import opened Prelude
  import opened Paths
  import opened DeepCopies
  import opened StateTree
  import opened StateShape
  import opened StateStore

  lemma MissStays(t: Heap, root: Obj, p: Path, i: nat)
    requires i <= |p| && LookupIn(t, root, p[..i]) == None
    ensures LookupIn(t, root, p) == None
  {
    assert KeyPath(p) == KeyPath(p[..i]) + KeyPath(p[i..]);
    FollowAppend(t, Ref(root), KeyPath(p[..i]), KeyPath(p[i..]));
  }

  /** Walks the dotted path from map to map; stops at the first part that is not there. */
  method Lookup(data: Obj, path: string, ghost own: set<Obj>, ghost t: Heap) returns (value: Val, found: bool)
    requires data in own && SelfContained(own) && t == Bodies(own)
    ensures found <==> LookupIn(t, data, Split(path, '.')).Some?
    ensures value == if found then LookupIn(t, data, Split(path, '.')).value else Nil
  {
    var parts := Split(path, '.');
    var current := Ref(data);
    for i := 0 to |parts|
      invariant LookupIn(t, data, parts[..i]) == Some(current) && ValIn(current, own)
    {
      assert parts[..i + 1] == Child(parts[..i], parts[i]);
      LookupChild(t, data, parts[..i], parts[i]);
      if !current.Ref? || !current.obj.body.MapBody? {
        FollowStops(t, current, [parts[i]]);
        assert KeyPath([parts[i]]) == [Key(parts[i])];
        MissStays(t, data, parts, i + 1);
        return Nil, false;
      }
      var entries := current.obj.body.entries;
      FollowKey(t, current.obj, parts[i]);
      if parts[i] !in entries {
        MissStays(t, data, parts, i + 1);
        return Nil, false;
      }
      assert BodyIn(current.obj.body, own);
      current := entries[parts[i]];
    }
    assert parts[..|parts|] == parts;
    found, value := true, current;
  }

  // ---- Any view of the whole state, whatever order its keys went in ----

  /** Every key finds the copy of its value, and every path below it what that path finds in the original. */
  lemma ViewAnswersKeys(h: Heap, t: Heap, flat: map<string, Val>, nested: Obj, at: map<Path, Obj>, leaf: map<Path, Val>,
                        maps: map<string, map<Obj, Obj>>, k: string, q: seq<Access>)
    requires IsView(h, t, flat, flat.Keys, nested, at, leaf, maps) && k in flat
    ensures LookupIn(t, nested, Split(k, '.')) == Some(CopyOf(maps[k], flat[k]))
    ensures Follow(t, Ref(nested), KeyPath(Split(k, '.')) + q) ==
      match Follow(h, flat[k], q)
      case None => None
      case Some(v) => Some(CopyOf(maps[k], v))
  {
    var p, m := Split(k, '.'), maps[k];
    assert LeafCopied(h, t, flat[k], m, leaf[p], at);
    TreeLookup(t, nested, at, leaf, p);
    FollowAppend(t, Ref(nested), KeyPath(p), q);
    forall o | o in m ensures o in h && m[o] in t && IsImage(m, h[o], t[m[o]]) {
      assert Restrict(t, m.Values)[m[o]] == t[m[o]];
    }
    PathsAgree(h, flat[k], m, t, q);
  }

  /** A proper prefix of a key finds a map. */
  lemma ViewAnswersPrefixes(h: Heap, t: Heap, flat: map<string, Val>, nested: Obj, at: map<Path, Obj>,
                            leaf: map<Path, Val>,
                            maps: map<string, map<Obj, Obj>>, p: Path)
    requires IsView(h, t, flat, flat.Keys, nested, at, leaf, maps)
    requires p == [] || exists k :: k in flat && ProperPrefix(p, Split(k, '.'))
    ensures LookupIn(t, nested, p).Some? && IsMap(t, LookupIn(t, nested, p).value)
  {
    assert p in at;
    TreeLookup(t, nested, at, leaf, p);
  }

  ghost predicate AtOrBelow(p: Path, k: string) {
    Split(k, '.') <= p
  }

  /** Nothing else is found. */
  lemma ViewAnswersNothingElse(h: Heap, t: Heap, flat: map<string, Val>, nested: Obj, at: map<Path, Obj>,
                               leaf: map<Path, Val>,
                               maps: map<string, map<Obj, Obj>>, p: Path)
    requires IsView(h, t, flat, flat.Keys, nested, at, leaf, maps)
    requires p != [] && forall k :: k in flat ==> !ProperPrefix(p, Split(k, '.')) && !AtOrBelow(p, k)
    ensures LookupIn(t, nested, p) == None
  {
    forall i | 0 <= i <= |p| ensures p[..i] !in leaf {
      forall k | k in flat ensures p[..i] != Split(k, '.') { assert !AtOrBelow(p, k); }
    }
    TreeMiss(t, nested, at, leaf, p);
  }

  lemma AtOrBelowMeans(p: Path, k: string)
    requires AtOrBelow(p, k)
    ensures p == Split(k, '.') + p[|Split(k, '.')|..]
    ensures KeyPath(p) == KeyPath(Split(k, '.')) + KeyPath(p[|Split(k, '.')|..])
  {
  }

  ghost predicate SameKind(t: Heap, a: Option<Val>, t': Heap, b: Option<Val>) {
    match (a, b)
    case (None, None) => true
    case (Some(v), Some(w)) => (v.Ref? <==> w.Ref?) && (!v.Ref? ==> v == w) && (IsMap(t, v) <==> IsMap(t', w))
    case _ => false
  }

  /**
   Two views of one state, built in any two orders, cannot be told apart by lookups: each path is
   found in both or in neither, with the same scalar, or a map in both, or a slice in both.
   */
  lemma ViewsAgree(h: Heap, flat: map<string, Val>, t: Heap, nested: Obj, at: map<Path, Obj>, leaf: map<Path, Val>,
                   maps: map<string, map<Obj, Obj>>,
                   t': Heap, nested': Obj, at': map<Path, Obj>, leaf': map<Path, Val>,
                   maps': map<string, map<Obj, Obj>>, p: Path)
    requires IsView(h, t, flat, flat.Keys, nested, at, leaf, maps)
    requires IsView(h, t', flat, flat.Keys, nested', at', leaf', maps')
    ensures SameKind(t, LookupIn(t, nested, p), t', LookupIn(t', nested', p))
  {
    if p == [] || exists k :: k in flat && ProperPrefix(p, Split(k, '.')) {
      ViewAnswersPrefixes(h, t, flat, nested, at, leaf, maps, p);
      ViewAnswersPrefixes(h, t', flat, nested', at', leaf', maps', p);
    } else if k :| k in flat && AtOrBelow(p, k) {
      AtOrBelowMeans(p, k);
      var q := KeyPath(p[|Split(k, '.')|..]);
      ViewAnswersKeys(h, t, flat, nested, at, leaf, maps, k, q);
      ViewAnswersKeys(h, t', flat, nested', at', leaf', maps', k, q);
      BelowKeySameKind(h, t, flat, nested, at, leaf, maps, k, q);
      BelowKeySameKind(h, t', flat, nested', at', leaf', maps', k, q);
    } else {
      ViewAnswersNothingElse(h, t, flat, nested, at, leaf, maps, p);
      ViewAnswersNothingElse(h, t', flat, nested', at', leaf', maps', p);
    }
  }

  /** At and below a key the view has the kinds of the stored value. */
  lemma BelowKeySameKind(h: Heap, t: Heap, flat: map<string, Val>, nested: Obj, at: map<Path, Obj>,
                         leaf: map<Path, Val>,
                         maps: map<string, map<Obj, Obj>>, k: string, q: seq<Access>)
    requires IsView(h, t, flat, flat.Keys, nested, at, leaf, maps) && k in flat
    ensures SameKind(h, Follow(h, flat[k], q), t, Follow(t, Ref(nested), KeyPath(Split(k, '.')) + q))
  {
    var p, m := Split(k, '.'), maps[k];
    ViewAnswersKeys(h, t, flat, nested, at, leaf, maps, k, q);
    assert LeafCopied(h, t, flat[k], m, leaf[p], at);
    forall o | o in m ensures o in h && m[o] in t && IsImage(m, h[o], t[m[o]]) {
      assert Restrict(t, m.Values)[m[o]] == t[m[o]];
    }
    PathsAgree(h, flat[k], m, t, q);
  }

  /** Flattening lists the paths that hold something other than a map. */
  predicate Flattened(t: Heap, nested: Obj, p: Path) {
    LookupIn(t, nested, p).Some? && !IsMap(t, LookupIn(t, nested, p).value)
  }

  ghost predicate IsKeyPath(flat: map<string, Val>, p: Path) {
    exists k :: k in flat && Split(k, '.') == p
  }

  lemma FlattenNoMaps(h: Heap, t: Heap, flat: map<string, Val>, nested: Obj, at: map<Path, Obj>, leaf: map<Path, Val>,
                      maps: map<string, map<Obj, Obj>>, p: Path)
    requires IsView(h, t, flat, flat.Keys, nested, at, leaf, maps)
    requires forall k :: k in flat ==> !IsMap(h, flat[k])
    ensures Flattened(t, nested, p) <==> IsKeyPath(flat, p)
  {
    forall r | r in leaf ensures !IsMap(t, leaf[r]) {
      var k :| k in flat && r == Split(k, '.');
      KeyKind(h, t, flat, nested, at, leaf, maps, k);
      TreeLookup(t, nested, at, leaf, r);
    }
    FlattenRecovers(t, nested, at, leaf, p);
  }

  /** What is found at a key is a map exactly if the stored value is. */
  lemma KeyKind(h: Heap, t: Heap, flat: map<string, Val>, nested: Obj, at: map<Path, Obj>, leaf: map<Path, Val>,
                maps: map<string, map<Obj, Obj>>, k: string)
    requires IsView(h, t, flat, flat.Keys, nested, at, leaf, maps) && k in flat
    ensures LookupIn(t, nested, Split(k, '.')).Some?
    ensures (IsMap(t, LookupIn(t, nested, Split(k, '.')).value) <==> IsMap(h, flat[k]))
  {
    BelowKeySameKind(h, t, flat, nested, at, leaf, maps, k, []);
    assert KeyPath(Split(k, '.')) + [] == KeyPath(Split(k, '.'));
  }

  /**
   Flattening the view gives back exactly the keys if and only if no stored value is a map; in any case
   the copy of its value is found at every key.
   */
  lemma FlattenView(h: Heap, t: Heap, flat: map<string, Val>, nested: Obj, at: map<Path, Obj>, leaf: map<Path, Val>,
                    maps: map<string, map<Obj, Obj>>)
    requires IsView(h, t, flat, flat.Keys, nested, at, leaf, maps)
    ensures (forall p :: Flattened(t, nested, p) <==> IsKeyPath(flat, p)) <==>
      (forall k :: k in flat ==> !IsMap(h, flat[k]))
    ensures forall k :: k in flat ==> LookupIn(t, nested, Split(k, '.')) == Some(CopyOf(maps[k], flat[k]))
  {
    forall k | k in flat ensures LookupIn(t, nested, Split(k, '.')) == Some(CopyOf(maps[k], flat[k])) {
      ViewAnswersKeys(h, t, flat, nested, at, leaf, maps, k, []);
    }
    if forall k :: k in flat ==> !IsMap(h, flat[k]) {
      forall p ensures Flattened(t, nested, p) <==> IsKeyPath(flat, p) {
        FlattenNoMaps(h, t, flat, nested, at, leaf, maps, p);
      }
    }
    if k :| k in flat && IsMap(h, flat[k]) {
      KeyKind(h, t, flat, nested, at, leaf, maps, k);
      assert !Flattened(t, nested, Split(k, '.')) && IsKeyPath(flat, Split(k, '.'));
    }
  }

  /** Nothing reached from the view belongs to the store: a reader can change what it got and not the state. */
  lemma {:induction false} ViewIsIsolated(h: Heap, t: Heap, v: Val, path: seq<Access>)
    requires Closed(t) && t.Keys !! h.Keys && ValIn(v, t.Keys)
    ensures Follow(t, v, path).Some? ==> ValIn(Follow(t, v, path).value, t.Keys)
    ensures Follow(t, v, path).Some? && Follow(t, v, path).value.Ref? ==> Follow(t, v, path).value.obj !in h
    decreases |path|
  {
    if path != [] && v.Ref? {
      assert BodyIn(t[v.obj], t.Keys);
      match (t[v.obj], path[0])
      case (MapBody(entries), Key(k)) => if k in entries { ViewIsIsolated(h, t, entries[k], path[1..]); }
      case (SliceBody(elems), Index(i)) => if i < |elems| { ViewIsIsolated(h, t, elems[i], path[1..]); }
      case _ =>
    }
  }
}
