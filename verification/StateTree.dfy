/**
 The nested view of the flat state as a value: which maps a set of dotted keys makes, and what
 lookups in them find.
 */
module StateTree {
  import opened Prelude
  import opened Paths
  import opened DeepCopies

  type Path = seq<string>

  predicate ProperPrefix(p: Path, q: Path) {
    |p| < |q| && p == q[..|p|]
  }

  /** No key, split at its dots, is a proper prefix of another. */
  ghost predicate PrefixFree(keys: set<string>) {
    forall a, b :: a in keys && b in keys ==> !ProperPrefix(Split(a, '.'), Split(b, '.'))
  }

  /** The parts of a key are a proper prefix of those of another exactly if the other goes on after it with a dot. */
  lemma ProperPrefixMeans(a: string, b: string)
    ensures ProperPrefix(Split(a, '.'), Split(b, '.')) <==> a + "." <= b
  {
    var p, q := Split(a, '.'), Split(b, '.');
    if ProperPrefix(p, q) {
      var rest := q[|p|..];
      SplitParts(b, '.');
      assert forall i :: 0 <= i < |rest| ==> rest[i] == q[|p| + i];
      SplitJoin(rest, '.');
      SplitAppend(a, Join(rest, '.'), '.');
      assert q == p + rest;
      SplitInjective(b, a + "." + Join(rest, '.'), '.');
    }
    if a + "." <= b {
      var rest := b[|a| + 1..];
      assert b == a + "." + rest;
      SplitAppend(a, rest, '.');
    }
  }

  /** No key goes on after another with a dot, so none needs a map where another has its value. */
  lemma PrefixFreeMeans(keys: set<string>)
    ensures PrefixFree(keys) <==> forall a, b :: a in keys && b in keys ==> !(a + "." <= b)
  {
    forall a, b | a in keys && b in keys ensures ProperPrefix(Split(a, '.'), Split(b, '.')) <==> a + "." <= b {
      ProperPrefixMeans(a, b);
    }
  }

  function KeyPath(p: Path): seq<Access> {
    seq(|p|, i requires 0 <= i < |p| => Key(p[i]))
  }

  /** What a lookup of the path p finds below the map root. */
  function LookupIn(t: Heap, root: Obj, p: Path): Option<Val> {
    Follow(t, Ref(root), KeyPath(p))
  }

  function Child(p: Path, name: string): Path {
    p + [name]
  }

  /**
   In the heap t the map root holds exactly the given tree: a map of its own for every path of at,
   and the value leaf[p] at every path of leaf.
   */
  ghost predicate IsTree(t: Heap, root: Obj, at: map<Path, Obj>, leaf: map<Path, Val>) {
    && [] in at && at[[]] == root
    && (forall p, q :: p in at && q in at && at[p] == at[q] ==> p == q)
    && (forall p :: p in at ==> p !in leaf && at[p] in t && t[at[p]].MapBody?)
    && (forall p, s {:trigger EntryOk(t, at, leaf, p, s)} :: p in at ==> EntryOk(t, at, leaf, p, s))
    && (forall p {:trigger HasParent(at, p)} :: p in at || p in leaf ==> HasParent(at, p))
  }

  /** What the map at p holds under the name s. */
  ghost predicate EntryOk(t: Heap, at: map<Path, Obj>, leaf: map<Path, Val>, p: Path, s: string) {
    && p in at && at[p] in t && t[at[p]].MapBody?
    && var entries, c := t[at[p]].entries, Child(p, s);
       if c in at then s in entries && entries[s] == Ref(at[c])
       else if c in leaf then s in entries && entries[s] == leaf[c]
       else s !in entries
  }

  ghost predicate HasParent(at: map<Path, Obj>, p: Path) {
    p == [] || p[..|p| - 1] in at
  }

  lemma {:induction false} FollowAppend(h: Heap, v: Val, p: seq<Access>, q: seq<Access>)
    ensures Follow(h, v, p + q) ==
      match Follow(h, v, p)
      case None => None
      case Some(w) => Follow(h, w, q)
    decreases |p|
  {
    if p == [] {
      assert p + q == q;
    } else if v.Ref? && v.obj in h {
      assert (p + q)[1..] == p[1..] + q && (p + q)[0] == p[0];
      match (h[v.obj], p[0])
      case (MapBody(entries), Key(k)) => if k in entries { FollowAppend(h, entries[k], p[1..], q); }
      case (SliceBody(elems), Index(i)) => if i < |elems| { FollowAppend(h, elems[i], p[1..], q); }
      case _ =>
    }
  }

  lemma LookupChild(t: Heap, root: Obj, p: Path, name: string)
    ensures LookupIn(t, root, Child(p, name)) ==
      match LookupIn(t, root, p)
      case None => None
      case Some(w) => Follow(t, w, [Key(name)])
  {
    assert KeyPath(Child(p, name)) == KeyPath(p) + [Key(name)];
    FollowAppend(t, Ref(root), KeyPath(p), [Key(name)]);
  }

  lemma FollowKey(t: Heap, o: Obj, name: string)
    requires o in t && t[o].MapBody?
    ensures Follow(t, Ref(o), [Key(name)]) == if name in t[o].entries then Some(t[o].entries[name]) else None
  {
  }

  lemma TreeChild(t: Heap, root: Obj, at: map<Path, Obj>, leaf: map<Path, Val>, p: Path, name: string)
    requires IsTree(t, root, at, leaf) && p in at
    ensures Follow(t, Ref(at[p]), [Key(name)]) ==
      if Child(p, name) in at then Some(Ref(at[Child(p, name)]))
      else if Child(p, name) in leaf then Some(leaf[Child(p, name)])
      else None
  {
    assert EntryOk(t, at, leaf, p, name);
    FollowKey(t, at[p], name);
  }

  /** Lookups in the tree find its maps and its leaves. */
  lemma {:induction false} TreeLookup(t: Heap, root: Obj, at: map<Path, Obj>, leaf: map<Path, Val>, p: Path)
    requires IsTree(t, root, at, leaf) && (p in at || p in leaf)
    ensures LookupIn(t, root, p) == Some(if p in at then Ref(at[p]) else leaf[p])
    decreases |p|
  {
    if p == [] {
      assert KeyPath(p) == [];
    } else {
      var init, last := p[..|p| - 1], p[|p| - 1];
      assert p == Child(init, last);
      assert HasParent(at, p);
      TreeLookup(t, root, at, leaf, init);
      LookupChild(t, root, init, last);
      TreeChild(t, root, at, leaf, init, last);
    }
  }

  /** And nothing else: a path that is not in the tree, and does not go through a leaf, is not found. */
  lemma {:induction false} TreeMiss(t: Heap, root: Obj, at: map<Path, Obj>, leaf: map<Path, Val>, p: Path)
    requires IsTree(t, root, at, leaf) && p !in at && forall i :: 0 <= i <= |p| ==> p[..i] !in leaf
    ensures LookupIn(t, root, p) == None
    decreases |p|
  {
    var init, last := p[..|p| - 1], p[|p| - 1];
    assert p == Child(init, last) && p[..|p|] == p;
    LookupChild(t, root, init, last);
    if init in at {
      TreeLookup(t, root, at, leaf, init);
      TreeChild(t, root, at, leaf, init, last);
    } else {
      forall i | 0 <= i <= |init| ensures init[..i] !in leaf { assert init[..i] == p[..i]; }
      TreeMiss(t, root, at, leaf, init);
    }
  }

  predicate IsMap(t: Heap, v: Val) {
    v.Ref? && v.obj in t && t[v.obj].MapBody?
  }

  lemma FollowStops(t: Heap, v: Val, p: Path)
    requires p != [] && !IsMap(t, v)
    ensures Follow(t, v, KeyPath(p)) == None
  {
  }

  lemma {:induction false} BelowLeaf(t: Heap, root: Obj, at: map<Path, Obj>, leaf: map<Path, Val>, p: Path, i: nat)
    requires IsTree(t, root, at, leaf) && i < |p| && p[..i] in leaf && !IsMap(t, leaf[p[..i]])
    ensures LookupIn(t, root, p) == None
  {
    TreeLookup(t, root, at, leaf, p[..i]);
    assert p[..i] + p[i..] == p && KeyPath(p) == KeyPath(p[..i]) + KeyPath(p[i..]);
    FollowAppend(t, Ref(root), KeyPath(p[..i]), KeyPath(p[i..]));
    FollowStops(t, leaf[p[..i]], p[i..]);
  }

  /**
   Flattening recovers the leaves: when no leaf is itself a map, the paths at which the tree holds
   something other than a map are exactly the paths of the leaves, with their values.
   */
  lemma FlattenRecovers(t: Heap, root: Obj, at: map<Path, Obj>, leaf: map<Path, Val>, p: Path)
    requires IsTree(t, root, at, leaf) && forall q :: q in leaf ==> !IsMap(t, leaf[q])
    ensures p in leaf <==> LookupIn(t, root, p).Some? && !IsMap(t, LookupIn(t, root, p).value)
    ensures p in leaf ==> LookupIn(t, root, p) == Some(leaf[p])
  {
    if p in at || p in leaf {
      TreeLookup(t, root, at, leaf, p);
    } else if i :| 0 <= i <= |p| && p[..i] in leaf {
      assert p[..|p|] == p;
      BelowLeaf(t, root, at, leaf, p, i);
    } else {
      TreeMiss(t, root, at, leaf, p);
    }
  }

  // ---- Growing the tree ----

  /** Only what the tree's own maps hold matters to it. */
  lemma TreeFrame(t: Heap, t': Heap, root: Obj, at: map<Path, Obj>, leaf: map<Path, Val>)
    requires IsTree(t, root, at, leaf) && forall p :: p in at ==> at[p] in t' && t'[at[p]] == t[at[p]]
    ensures IsTree(t', root, at, leaf)
  {
    forall p, s | p in at ensures EntryOk(t', at, leaf, p, s) { assert EntryOk(t, at, leaf, p, s); }
  }

  lemma ChildParent(p: Path, name: string)
    ensures Child(p, name) != [] && Child(p, name)[..|Child(p, name)| - 1] == p
    ensures forall q, s :: Child(q, s) == Child(p, name) ==> q == p && s == name
  {
  }

  /** Nothing lies below a path that is not in the tree. */
  lemma NothingBelow(t: Heap, root: Obj, at: map<Path, Obj>, leaf: map<Path, Val>, c: Path, s: string)
    requires IsTree(t, root, at, leaf) && c !in at
    ensures Child(c, s) !in at && Child(c, s) !in leaf
  {
    ChildParent(c, s);
    assert !HasParent(at, Child(c, s));
  }

  lemma AddMapEntry(t: Heap, t': Heap, root: Obj, at: map<Path, Obj>, leaf: map<Path, Val>, p: Path, name: string,
                    n: Obj, q: Path, s: string)
    requires IsTree(t, root, at, leaf) && p in at && name !in t[at[p]].entries && n !in t
    requires t' == t[n := MapBody(map[])][at[p] := MapBody(t[at[p]].entries[name := Ref(n)])]
    requires q in at || q == Child(p, name)
    ensures EntryOk(t', at[Child(p, name) := n], leaf, q, s)
  {
    var c := Child(p, name);
    ChildParent(p, name);
    assert EntryOk(t, at, leaf, p, name);
    if q == c {
      NothingBelow(t, root, at, leaf, c, s);
      ChildParent(c, s);
    } else {
      ChildParent(q, s);
      assert EntryOk(t, at, leaf, q, s);
    }
  }

  /** A new empty map below the map at p, under a name that was free. */
  lemma AddMap(t: Heap, t': Heap, root: Obj, at: map<Path, Obj>, leaf: map<Path, Val>, p: Path, name: string, n: Obj)
    requires IsTree(t, root, at, leaf) && p in at && name !in t[at[p]].entries && n !in t
    requires t' == t[n := MapBody(map[])][at[p] := MapBody(t[at[p]].entries[name := Ref(n)])]
    ensures IsTree(t', root, at[Child(p, name) := n], leaf)
  {
    var c := Child(p, name);
    var at' := at[c := n];
    ChildParent(p, name);
    assert EntryOk(t, at, leaf, p, name);
    forall q, s | q in at'
      ensures EntryOk(t', at', leaf, q, s)
    {
      AddMapEntry(t, t', root, at, leaf, p, name, n, q, s);
    }
    forall q | q in at' || q in leaf ensures HasParent(at', q) {
      if q != c { assert HasParent(at, q); }
    }
  }

  /** A value below the map at p, at a path that is free. */
  lemma AddLeaf(t: Heap, t': Heap, root: Obj, at: map<Path, Obj>, leaf: map<Path, Val>, p: Path, name: string, v: Val)
    requires IsTree(t, root, at, leaf) && p in at && Child(p, name) !in at
    requires t' == t[at[p] := MapBody(t[at[p]].entries[name := v])]
    ensures IsTree(t', root, at, leaf[Child(p, name) := v])
  {
    var leaf' := leaf[Child(p, name) := v];
    ChildParent(p, name);
    forall q, s | q in at ensures EntryOk(t', at, leaf', q, s) { assert EntryOk(t, at, leaf, q, s); }
    forall q | q in at || q in leaf' ensures HasParent(at, q) {
      if q != Child(p, name) { assert HasParent(at, q); }
    }
  }
}
