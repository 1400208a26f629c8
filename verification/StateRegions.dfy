/** The tree of nested maps with a region of objects for every leaf, and what inserting one value makes of it. */
module StateRegions {
  import opened Prelude
  import opened DeepCopies
  import opened StateTree
  import opened StateObs
  import opened StateInsert

  type Regions = map<Path, set<Obj>>

  ghost predicate RegionAt(t: Heap, at: map<Path, Obj>, v: Val, r: set<Obj>) {
    IsRegion(t, r) && ValIn(v, r) && r !! at.Values
  }

  /** Every leaf has a region of its own, away from the maps of the tree. */
  ghost predicate RegionsOk(t: Heap, at: map<Path, Obj>, leaf: map<Path, Val>, region: Regions) {
    && region.Keys == leaf.Keys
    && (forall p :: p in leaf ==> RegionAt(t, at, leaf[p], region[p]))
    && forall p, q :: p in leaf && q in leaf && p != q ==> region[p] !! region[q]
  }

  /** The leaves and regions other than those at the paths in gone are still there, and untouched. */
  ghost predicate LeavesKept(t: Heap, t': Heap, leaf: map<Path, Val>, region: Regions, leaf': map<Path, Val>,
                             region': Regions, kept: set<Path>) {
    forall q :: q in kept ==>
      && q in leaf && q in leaf' && leaf'[q] == leaf[q] && q in region && q in region' && region'[q] == region[q]
      && AgreeOn(t, t', region[q])
  }

  /** The paths of the maps on the way to k. */
  function Prefixes(k: Path): set<Path> {
    set i | 0 <= i < |k| :: k[..i]
  }

  /** The keys of m that do not lie at or below k. */
  function Outside<T>(m: map<Path, T>, k: Path): set<Path> {
    set q | q in m && !(k <= q)
  }

  /** The insertion ended in the region of the leaf at a. */
  ghost predicate HitLeaf(t: Heap, t': Heap, at: map<Path, Obj>, leaf: map<Path, Val>, region: Regions, k: Path,
                          x: Val, copies: Heap,
                          at': map<Path, Obj>, leaf': map<Path, Val>, region': Regions, a: Path) {
    && a in leaf && a in leaf' && ProperPrefix(a, k) && at' == at && leaf'.Keys == leaf.Keys
    && LeavesKept(t, t', leaf, region, leaf', region', leaf.Keys - {a})
    && (Same(t, leaf[a], t', leaf'[a]) <==> LooksLike(t, Follow(t, leaf[a], KeyPath(k[|a|..])), copies, x))
  }

  /** The insertion made k a leaf, in place of all that was at or below k. */
  ghost predicate NewLeaf(t: Heap, t': Heap, at: map<Path, Obj>, leaf: map<Path, Val>, region: Regions, k: Path,
                          x: Val, copies: Heap,
                          at': map<Path, Obj>, leaf': map<Path, Val>, region': Regions) {
    && (forall a :: a in leaf ==> !ProperPrefix(a, k))
    && at'.Keys == Outside(at, k) + Prefixes(k) && leaf'.Keys == Outside(leaf, k) + {k}
    && LeavesKept(t, t', leaf, region, leaf', region', Outside(leaf, k))
    && leaf'[k] == x && k in region' && region'[k] == copies.Keys && AgreeOn(copies, t', copies.Keys)
  }

  // ---- Everything in the tree has its prefixes in the tree ----

  lemma {:induction false} PrefixInTree(t: Heap, root: Obj, at: map<Path, Obj>, leaf: map<Path, Val>, q: Path, i: nat)
    requires IsTree(t, root, at, leaf) && (q in at || q in leaf) && i < |q|
    ensures q[..i] in at
    decreases |q|
  {
    assert HasParent(at, q);
    var init := q[..|q| - 1];
    if i < |init| {
      assert init[..i] == q[..i];
      PrefixInTree(t, root, at, leaf, init, i);
    } else {
      assert q[..i] == init;
    }
  }

  // ---- The last part ----

  function Pruned<T>(m: map<Path, T>, k: Path): map<Path, T> {
    map q | q in m && !(k <= q) :: m[q]
  }

  lemma PutEntry(t: Heap, t': Heap, root: Obj, at: map<Path, Obj>, leaf: map<Path, Val>, p: Path, name: string, v: Val,
                 q: Path, s: string)
    requires IsTree(t, root, at, leaf) && p in at && q in Pruned(at, Child(p, name))
    requires forall r :: r in at && r != p ==> at[r] in t' && t'[at[r]] == t[at[r]]
    requires at[p] in t' && t'[at[p]] == MapBody(t[at[p]].entries[name := v])
    ensures EntryOk(t', Pruned(at, Child(p, name)), Pruned(leaf, Child(p, name))[Child(p, name) := v], q, s)
  {
    var k := Child(p, name);
    ChildParent(p, name);
    ChildParent(q, s);
    assert EntryOk(t, at, leaf, q, s);
    assert Child(q, s)[..|q|] == q;
  }

  lemma PutParent(at: map<Path, Obj>, leaf: map<Path, Val>, p: Path, name: string, v: Val, q: Path)
    requires p in at && (q in Pruned(at, Child(p, name)) || q in Pruned(leaf, Child(p, name))[Child(p, name) := v])
    requires q in at || q in leaf ==> HasParent(at, q)
    ensures HasParent(Pruned(at, Child(p, name)), q)
  {
    ChildParent(p, name);
    var k := Child(p, name);
    if q != k && q != [] { assert k <= q[..|q| - 1] ==> k <= q; }
  }

  lemma PutMaps(t: Heap, t': Heap, root: Obj, at: map<Path, Obj>, leaf: map<Path, Val>, p: Path, name: string, v: Val)
    requires IsTree(t, root, at, leaf) && p in at
    requires forall r :: r in at && r != p ==> at[r] in t' && t'[at[r]] == t[at[r]]
    requires at[p] in t' && t'[at[p]] == MapBody(t[at[p]].entries[name := v])
    ensures var k, at' := Child(p, name), Pruned(at, Child(p, name));
      && [] in at' && at'[[]] == root
      && (forall q, r :: q in at' && r in at' && at'[q] == at'[r] ==> q == r)
      && forall q :: q in at' ==> q !in Pruned(leaf, k)[k := v] && at'[q] in t' && t'[at'[q]].MapBody?
  {
    ChildParent(p, name);
  }

  /** A value set below the map at p replaces all that was at or below its path. */
  lemma PutLeaf(t: Heap, t': Heap, root: Obj, at: map<Path, Obj>, leaf: map<Path, Val>, p: Path, name: string, v: Val)
    requires IsTree(t, root, at, leaf) && p in at
    requires forall r :: r in at && r != p ==> at[r] in t' && t'[at[r]] == t[at[r]]
    requires at[p] in t' && t'[at[p]] == MapBody(t[at[p]].entries[name := v])
    ensures IsTree(t', root, Pruned(at, Child(p, name)), Pruned(leaf, Child(p, name))[Child(p, name) := v])
  {
    var k := Child(p, name);
    var at', leaf' := Pruned(at, k), Pruned(leaf, k)[k := v];
    PutMaps(t, t', root, at, leaf, p, name, v);
    forall q, s | q in at' ensures EntryOk(t', at', leaf', q, s) { PutEntry(t, t', root, at, leaf, p, name, v, q, s); }
    forall q | q in at' || q in leaf' ensures HasParent(at', q) {
      assert q in at || q in leaf ==> HasParent(at, q);
      PutParent(at, leaf, p, name, v, q);
    }
  }

  /** No leaf lies on the way to a map of the tree. */
  lemma NoLeafBefore(t: Heap, root: Obj, at: map<Path, Obj>, leaf: map<Path, Val>, p: Path, name: string)
    requires IsTree(t, root, at, leaf) && p in at
    ensures forall a :: a in leaf ==> !ProperPrefix(a, Child(p, name))
    ensures Prefixes(Child(p, name)) <= at.Keys
  {
    var k := Child(p, name);
    forall i | 0 <= i < |k| ensures k[..i] in at {
      if i < |p| {
        assert k[..i] == p[..i];
        PrefixInTree(t, root, at, leaf, p, i);
      } else {
        assert k[..i] == p;
      }
    }
    forall a | a in leaf ensures !ProperPrefix(a, k) {
      if |a| < |k| { assert k[..|a|] in at; }
    }
  }

  lemma OutsideIs<T>(m: map<Path, T>, k: Path)
    ensures Pruned(m, k).Keys == Outside(m, k)
  {
  }

  /** Inserting the last part: the value takes its place in the tree. */
  lemma InsertLast(t: Heap, t': Heap, root: Obj, at: map<Path, Obj>, leaf: map<Path, Val>, region: Regions, p: Path,
                   name: string, x: Val, copies: Heap)
    returns (at': map<Path, Obj>, leaf': map<Path, Val>, region': Regions)
    requires IsTree(t, root, at, leaf) && RegionsOk(t, at, leaf, region) && p in at && OwnCopies(copies, x)
    requires copies.Keys !! t.Keys
    requires t' == (t + copies)[at[p] := MapBody(t[at[p]].entries[name := x])]
    ensures IsTree(t', root, at', leaf') && RegionsOk(t', at', leaf', region')
    ensures NewLeaf(t, t', at, leaf, region, Child(p, name), x, copies, at', leaf', region')
  {
    var k := Child(p, name);
    at', leaf', region' := Pruned(at, k), Pruned(leaf, k)[k := x], Pruned(region, k)[k := copies.Keys];
    PutLeaf(t, t', root, at, leaf, p, name, x);
    NoLeafBefore(t, root, at, leaf, p, name);
    ChildParent(p, name);
    OutsideIs(at, k);
    OutsideIs(leaf, k);
    PrefixesOutside(at, k);
    LastRegions(t, t', root, at, leaf, region, p, name, x, copies);
  }

  lemma PrefixesOutside(at: map<Path, Obj>, k: Path)
    requires Prefixes(k) <= at.Keys
    ensures Outside(at, k) == Outside(at, k) + Prefixes(k)
  {
    forall q | q in Prefixes(k) ensures q in Outside(at, k) { assert |q| < |k|; }
  }

  lemma LastRegions(t: Heap, t': Heap, root: Obj, at: map<Path, Obj>, leaf: map<Path, Val>, region: Regions, p: Path,
                    name: string, x: Val, copies: Heap)
    requires IsTree(t, root, at, leaf) && RegionsOk(t, at, leaf, region) && p in at && OwnCopies(copies, x)
    requires copies.Keys !! t.Keys
    requires t' == (t + copies)[at[p] := MapBody(t[at[p]].entries[name := x])]
    ensures var k := Child(p, name);
      var at', leaf', region' := Pruned(at, k), Pruned(leaf, k)[k := x], Pruned(region, k)[k := copies.Keys];
      RegionsOk(t', at', leaf', region') && LeavesKept(t, t', leaf, region, leaf', region', Outside(leaf, k))
      && AgreeOn(copies, t', copies.Keys)
  {
    var k := Child(p, name);
    var at', leaf', region' := Pruned(at, k), Pruned(leaf, k)[k := x], Pruned(region, k)[k := copies.Keys];
    assert at'.Values <= at.Values;
    forall q | q in Outside(leaf, k)
      ensures RegionAt(t, at, leaf[q], region[q]) && AgreeOn(t, t', region[q]) && region[q] <= t.Keys
    {
      assert RegionAt(t, at, leaf[q], region[q]);
      assert at[p] in at.Values;
    }
    forall q | q in leaf' ensures RegionAt(t', at', leaf'[q], region'[q]) {
      if q == k { CopiesStay(copies, t', x); } else { RegionStays(t, t', at, at', leaf[q], region[q]); }
    }
  }

  lemma CopiesStay(copies: Heap, t': Heap, x: Val)
    requires OwnCopies(copies, x) && AgreeOn(copies, t', copies.Keys)
    ensures IsRegion(t', copies.Keys) && ValIn(x, copies.Keys)
  {
    forall o | o in copies.Keys ensures o in t' && BodyIn(t'[o], copies.Keys) { assert BodyIn(copies[o], copies.Keys); }
  }

  lemma RegionStays(t: Heap, t': Heap, at: map<Path, Obj>, at': map<Path, Obj>, v: Val, r: set<Obj>)
    requires RegionAt(t, at, v, r) && AgreeOn(t, t', r) && r !! at'.Values
    ensures RegionAt(t', at', v, r)
  {
    forall o | o in r ensures o in t' && BodyIn(t'[o], r) { assert BodyIn(t[o], r); }
  }

  // ---- A leaf on the way ----

  /** In the region of the leaf c, or in a new map put in its place. */
  lemma InsertAtLeaf(t: Heap, t': Heap, root: Obj, at: map<Path, Obj>, leaf: map<Path, Val>, region: Regions, p: Path,
                     rest: Path,
                     x: Val, copies: Heap, trace: seq<Place>)
    returns (leaf': map<Path, Val>, region': Regions)
    requires IsTree(t, root, at, leaf) && RegionsOk(t, at, leaf, region) && p in at && |rest| > 1
    requires Child(p, rest[0]) in leaf
    requires Inserts(t, at[p], rest, x, copies, t', trace) && OwnCopies(copies, x)
    ensures IsTree(t', root, at, leaf') && RegionsOk(t', at, leaf', region')
    ensures HitLeaf(t, t', at, leaf, region, p + rest, x, copies, at, leaf', region', Child(p, rest[0]))
  {
    var c := Child(p, rest[0]);
    assert EntryOk(t, at, leaf, p, rest[0]) && RegionAt(t, at, leaf[c], region[c]);
    assert (p + rest)[|c|..] == rest[1..] && (p + rest)[..|c|] == c;
    var v, r;
    if IsMap(t, leaf[c]) {
      v, r := IntoLeaf(t, t', root, at, leaf, p, rest, x, copies, trace, region[c]);
    } else {
      v, r := OverLeaf(t, t', root, at, leaf, p, rest, x, copies, trace);
    }
    leaf', region' := leaf[c := v], region[c := r];
    forall q | q in leaf && q != c ensures AgreeOn(t, t', region[q]) {
      assert RegionAt(t, at, leaf[q], region[q]) && at[p] in at.Values;
    }
    LeafRegions(t, t', at, leaf, region, c, v, r);
  }

  lemma IntoLeaf(t: Heap, t': Heap, root: Obj, at: map<Path, Obj>, leaf: map<Path, Val>, p: Path, rest: Path,
                 x: Val, copies: Heap, trace: seq<Place>, r: set<Obj>)
    returns (v: Val, r': set<Obj>)
    requires IsTree(t, root, at, leaf) && p in at && |rest| > 1 && Child(p, rest[0]) in leaf
    requires EntryOk(t, at, leaf, p, rest[0])
    requires var v := leaf[Child(p, rest[0])]; IsMap(t, v) && RegionAt(t, at, v, r)
    requires Inserts(t, at[p], rest, x, copies, t', trace) && OwnCopies(copies, x)
    ensures var c := Child(p, rest[0]);
      && IsTree(t', root, at, leaf[c := v]) && RegionAt(t', at, v, r') && r' - r !! t.Keys
      && AgreeOn(t, t', t.Keys - r - at.Values)
      && (Same(t, leaf[c], t', v) <==> LooksLike(t, Follow(t, leaf[c], KeyPath(rest[1..])), copies, x))
  {
    v := leaf[Child(p, rest[0])];
    assert KeyPath([]) == [] && [] + rest[1..] == rest[1..];
    r' := InsertRegion(t, r, v, [], trace[0].cur, rest[1..], x, copies, t', trace[1..]);
    TreeFrame(t, t', root, at, leaf);
    assert leaf[Child(p, rest[0]) := v] == leaf;
    assert forall q :: q in at ==> at[q] in at.Values && at[q] in t;
  }

  lemma OverLeaf(t: Heap, t': Heap, root: Obj, at: map<Path, Obj>, leaf: map<Path, Val>, p: Path, rest: Path,
                 x: Val, copies: Heap, trace: seq<Place>)
    returns (v: Val, r': set<Obj>)
    requires IsTree(t, root, at, leaf) && p in at && |rest| > 1 && Child(p, rest[0]) in leaf
    requires EntryOk(t, at, leaf, p, rest[0])
    requires !IsMap(t, leaf[Child(p, rest[0])])
    requires Inserts(t, at[p], rest, x, copies, t', trace) && OwnCopies(copies, x)
    ensures var c := Child(p, rest[0]);
      && IsTree(t', root, at, leaf[c := v]) && RegionAt(t', at, v, r') && r' !! t.Keys
      && AgreeOn(t, t', t.Keys - at.Values)
      && (Same(t, leaf[c], t', v) <==> LooksLike(t, Follow(t, leaf[c], KeyPath(rest[1..])), copies, x))
  {
    var u, next := trace[0].heap, trace[0].cur;
    var was := leaf[Child(p, rest[0])];
    v := Ref(next);
    r' := InsertFresh(u, {next}, next, rest[1..], x, copies, t', trace[1..]);
    ReplaceLeaf(t, u, t', root, at, leaf, p, rest[0], next);
    FollowStops(t, was, rest[1..]);
    assert Obs(t, was, []) != Some(MapKind) && Obs(t', v, []) == Some(MapKind);
    assert forall q :: q in at ==> at[q] in at.Values && at[q] in t;
  }

  lemma ReplaceLeaf(t: Heap, u: Heap, t': Heap, root: Obj, at: map<Path, Obj>, leaf: map<Path, Val>, p: Path,
                    name: string, next: Obj)
    requires IsTree(t, root, at, leaf) && p in at && Child(p, name) in leaf && next !in t
    requires u == t[next := MapBody(map[])][at[p] := MapBody(t[at[p]].entries[name := Ref(next)])]
    requires AgreeOn(u, t', u.Keys - {next})
    ensures IsTree(t', root, at, leaf[Child(p, name) := Ref(next)])
  {
    var w := t[at[p] := MapBody(t[at[p]].entries[name := Ref(next)])];
    AddLeaf(t, w, root, at, leaf, p, name, Ref(next));
    TreeFrame(w, t', root, at, leaf[Child(p, name) := Ref(next)]);
  }

  lemma LeafRegions(t: Heap, t': Heap, at: map<Path, Obj>, leaf: map<Path, Val>, region: Regions, c: Path, v: Val,
                    r: set<Obj>)
    requires RegionsOk(t, at, leaf, region) && c in leaf && RegionAt(t', at, v, r)
    requires r - region[c] !! t.Keys
    requires forall q :: q in leaf && q != c ==> AgreeOn(t, t', region[q])
    ensures RegionsOk(t', at, leaf[c := v], region[c := r])
    ensures LeavesKept(t, t', leaf, region, leaf[c := v], region[c := r], leaf.Keys - {c})
  {
    var leaf', region' := leaf[c := v], region[c := r];
    forall q | q in leaf' ensures RegionAt(t', at, leaf'[q], region'[q]) {
      if q != c { RegionStays(t, t', at, at, leaf[q], region[q]); }
    }
    forall q | q in leaf && q != c ensures region[q] !! r {
      assert RegionAt(t, at, leaf[q], region[q]);
    }
  }

  // ---- A new map on the way ----

  lemma NewMapRegions(t: Heap, u: Heap, root: Obj, at: map<Path, Obj>, leaf: map<Path, Val>, region: Regions, p: Path,
                      name: string, next: Obj)
    requires IsTree(t, root, at, leaf) && RegionsOk(t, at, leaf, region) && p in at && next !in t
    requires u == t[next := MapBody(map[])][at[p] := MapBody(t[at[p]].entries[name := Ref(next)])]
    ensures RegionsOk(u, at[Child(p, name) := next], leaf, region)
    ensures forall q :: q in leaf ==> AgreeOn(t, u, region[q])
  {
    var at' := at[Child(p, name) := next];
    assert at'.Values <= at.Values + {next};
    forall q | q in leaf ensures RegionAt(u, at', leaf[q], region[q]) && AgreeOn(t, u, region[q]) {
      assert RegionAt(t, at, leaf[q], region[q]) && at[p] in at.Values;
      RegionStays(t, u, at, at', leaf[q], region[q]);
    }
  }

  /** Below a path that is not in the tree there is nothing. */
  lemma NothingFurther(t: Heap, root: Obj, at: map<Path, Obj>, leaf: map<Path, Val>, c: Path, q: Path)
    requires IsTree(t, root, at, leaf) && c !in at && c !in leaf && c <= q
    ensures q !in at && q !in leaf
  {
    assert q[..|c|] == c && (|q| == |c| ==> q == c);
    if (q in at || q in leaf) && |c| < |q| { PrefixInTree(t, root, at, leaf, q, |c|); }
  }

  /** What the insertion did from u on, it did from t. */
  lemma FromEarlier(t: Heap, u: Heap, t': Heap, at: map<Path, Obj>, at1: map<Path, Obj>, leaf: map<Path, Val>,
                    region: Regions, c: Path, k: Path,
                    x: Val, copies: Heap, at': map<Path, Obj>, leaf': map<Path, Val>, region': Regions)
    requires NewLeaf(u, t', at1, leaf, region, k, x, copies, at', leaf', region')
    requires ProperPrefix(c, k) && at1.Keys == at.Keys + {c} && forall q :: q in leaf && q in region ==>
      AgreeOn(t, u, region[q])
    ensures NewLeaf(t, t', at, leaf, region, k, x, copies, at', leaf', region')
  {
    assert c in Prefixes(k) by { assert k[..|c|] == c; }
    assert Outside(at1, k) + Prefixes(k) == Outside(at, k) + Prefixes(k);
  }

  // ---- The whole insertion ----

  /**
   A value inserted below the map at p either ends in the region of a leaf on its way, where a reader
   notices it if and only if he did not find a value there that looks the same, or it becomes a leaf itself.
   */
  lemma {:induction false} InsertTree(t: Heap, t': Heap, root: Obj, at: map<Path, Obj>, leaf: map<Path, Val>,
                                      region: Regions, p: Path, rest: Path,
                                      x: Val, copies: Heap, trace: seq<Place>)
    returns (at': map<Path, Obj>, leaf': map<Path, Val>, region': Regions, hit: Option<Path>)
    requires IsTree(t, root, at, leaf) && RegionsOk(t, at, leaf, region) && p in at
    requires Inserts(t, at[p], rest, x, copies, t', trace) && OwnCopies(copies, x)
    ensures IsTree(t', root, at', leaf') && RegionsOk(t', at', leaf', region')
    ensures hit.Some? ==> HitLeaf(t, t', at, leaf, region, p + rest, x, copies, at', leaf', region', hit.value)
    ensures hit.None? ==> NewLeaf(t, t', at, leaf, region, p + rest, x, copies, at', leaf', region')
    decreases |rest|
  {
    var c := Child(p, rest[0]);
    assert EntryOk(t, at, leaf, p, rest[0]);
    if |rest| == 1 {
      assert p + rest == c;
      at', leaf', region' := InsertLast(t, t', root, at, leaf, region, p, rest[0], x, copies);
      hit := None;
    } else {
      var u, next := trace[0].heap, trace[0].cur;
      assert p + rest == c + rest[1..];
      if c in at {
        at', leaf', region', hit := InsertTree(t, t', root, at, leaf, region, c, rest[1..], x, copies, trace[1..]);
      } else if c in leaf {
        at' := at;
        leaf', region' := InsertAtLeaf(t, t', root, at, leaf, region, p, rest, x, copies, trace);
        hit := Some(c);
      } else {
        at', leaf', region' := InsertNewMap(t, t', root, at, leaf, region, p, rest, x, copies, trace);
        hit := None;
      }
    }
  }

  lemma {:induction false} InsertNewMap(t: Heap, t': Heap, root: Obj, at: map<Path, Obj>, leaf: map<Path, Val>,
                                        region: Regions, p: Path, rest: Path,
                                        x: Val, copies: Heap, trace: seq<Place>)
    returns (at': map<Path, Obj>, leaf': map<Path, Val>, region': Regions)
    requires IsTree(t, root, at, leaf) && RegionsOk(t, at, leaf, region) && p in at && |rest| > 1
    requires Inserts(t, at[p], rest, x, copies, t', trace) && OwnCopies(copies, x)
    requires Child(p, rest[0]) !in at && Child(p, rest[0]) !in leaf
    ensures IsTree(t', root, at', leaf') && RegionsOk(t', at', leaf', region')
    ensures NewLeaf(t, t', at, leaf, region, p + rest, x, copies, at', leaf', region')
    decreases |rest|, 0
  {
    var c := Child(p, rest[0]);
    var u, next := trace[0].heap, trace[0].cur;
    var at1 := at[c := next];
    assert EntryOk(t, at, leaf, p, rest[0]);
    assert p + rest == c + rest[1..];
    AddMap(t, u, root, at, leaf, p, rest[0], next);
    NewMapRegions(t, u, root, at, leaf, region, p, rest[0], next);
    if |rest| == 2 {
      assert p + rest == Child(c, rest[1]);
      at', leaf', region' := InsertLast(u, t', root, at1, leaf, region, c, rest[1], x, copies);
    } else {
      ChildParent(p, rest[0]);
      var d := Child(c, rest[1]);
      NothingFurther(t, root, at, leaf, c, d);
      ChildParent(c, rest[1]);
      at', leaf', region' := InsertNewMap(u, t', root, at1, leaf, region, c, rest[1..], x, copies, trace[1..]);
    }
    assert (p + rest)[..|c|] == c;
    FromEarlier(t, u, t', at, at1, leaf, region, c, p + rest, x, copies, at', leaf', region');
  }
}
