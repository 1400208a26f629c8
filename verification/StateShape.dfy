/** What the nested view of some keys of the state looks like, whatever the keys and their order. */
module StateShape {
  import opened Prelude
  import opened Paths
  import opened DeepCopies
  import opened StateTree
  import opened StateObs
  import opened StateInsert
  import opened StateRegions

  // ---- Views of prefix-free keys ----

  /** The maps of the tree lie at the proper prefixes of the given keys. */
  ghost predicate SpinesOf(at: map<Path, Obj>, keys: set<string>) {
    forall p :: p in at <==> p == [] || exists k :: k in keys && ProperPrefix(p, Split(k, '.'))
  }

  /** The leaves of the tree lie at the given keys. */
  ghost predicate LeavesOf(leaf: map<Path, Val>, keys: set<string>) {
    forall p :: p in leaf <==> exists k :: k in keys && p == Split(k, '.')
  }

  /** What t holds of the objects of s. */
  function Restrict(t: Heap, s: set<Obj>): Heap {
    map o | o in t && o in s :: t[o]
  }

  /** leaf is a finished deep copy of v, in objects of its own. */
  ghost predicate LeafCopied(h: Heap, t: Heap, v: Val, m: map<Obj, Obj>, leaf: Val, at: map<Path, Obj>) {
    m.Values <= t.Keys && at.Values !! m.Values && leaf == CopyOf(m, v)
      && IsDeepCopy(h, v, m, leaf, Restrict(t, m.Values))
  }

  /** Every key of done has its copied leaf. */
  ghost predicate LeavesCopied(h: Heap, t: Heap, flat: map<string, Val>, done: set<string>,
                               at: map<Path, Obj>, leaf: map<Path, Val>, maps: map<string, map<Obj, Obj>>) {
    && done <= flat.Keys && maps.Keys == done
    && forall k :: k in done ==> Split(k, '.') in leaf && LeafCopied(h, t, flat[k], maps[k], leaf[Split(k, '.')], at)
  }

  /**
   In the heap t, nested is the tree of the keys of flat that are in done: one map for every proper
   prefix of a key, and at every key the deep copy of its value, maps[key] being the objects copied.
   */
  ghost predicate IsView(h: Heap, t: Heap, flat: map<string, Val>, done: set<string>, nested: Obj,
                         at: map<Path, Obj>, leaf: map<Path, Val>, maps: map<string, map<Obj, Obj>>) {
    && IsTree(t, nested, at, leaf) && SpinesOf(at, done) && LeavesOf(leaf, done)
    && LeavesCopied(h, t, flat, done, at, leaf, maps)
  }

  // ---- Any keys: the tree of those that extend no other ----

  predicate IsBelow(b: string, a: string) {
    ProperPrefix(Split(a, '.'), Split(b, '.'))
  }

  ghost predicate IsMinimal(keys: set<string>, k: string) {
    k in keys && forall a :: a in keys ==> !IsBelow(k, a)
  }

  ghost function Minimal(keys: set<string>): set<string> {
    set k | k in keys && IsMinimal(keys, k)
  }

  /** The maps and leaves of the tree, and the objects of every leaf. */
  datatype Shape = Shape(at: map<Path, Obj>, leaf: map<Path, Val>, region: Regions)

  /** The view of the keys in done is the tree of the minimal ones, each with a region of its own. */
  ghost predicate Shaped(t: Heap, nested: Obj, done: set<string>, shape: Shape) {
    match shape
    case Shape(at, leaf, region) =>
      IsTree(t, nested, at, leaf) && RegionsOk(t, at, leaf, region) && SpinesOf(at, Minimal(done))
        && LeavesOf(leaf, Minimal(done))
  }

  lemma PrefixTransitive(p: Path, q: Path, r: Path)
    requires ProperPrefix(p, q) && ProperPrefix(q, r)
    ensures ProperPrefix(p, r)
  {
    assert q[..|p|] == r[..|q|][..|p|] == r[..|p|];
  }

  /** Every key is minimal or extends a minimal one. */
  lemma {:induction false} SomeMinimal(keys: set<string>, k: string) returns (a: string)
    requires k in keys
    ensures IsMinimal(keys, a) && (a == k || IsBelow(k, a))
    decreases |Split(k, '.')|
  {
    if b :| b in keys && IsBelow(k, b) {
      a := SomeMinimal(keys, b);
      if a != b { PrefixTransitive(Split(a, '.'), Split(b, '.'), Split(k, '.')); }
    } else {
      a := k;
    }
  }

  /** A key below a leaf changes nothing about the minimal ones. */
  lemma MinimalUnchanged(done: set<string>, key: string, a: string)
    requires key !in done && a in done && IsBelow(key, a)
    ensures Minimal(done + {key}) == Minimal(done)
  {
    forall k ensures k in Minimal(done + {key}) <==> k in Minimal(done) {
      if k in Minimal(done) && IsBelow(k, key) { PrefixTransitive(Split(a, '.'), Split(key, '.'), Split(k, '.')); }
    }
  }

  /** A key that extends no other takes the place of those that extend it. */
  lemma MinimalReplaced(done: set<string>, key: string)
    requires key !in done && forall a :: a in done ==> !IsBelow(key, a)
    ensures forall k :: k in Minimal(done + {key}) <==> k == key || (k in Minimal(done) && !IsBelow(k, key))
  {
    forall k ensures k in Minimal(done + {key}) <==> k == key || (k in Minimal(done) && !IsBelow(k, key)) {
      if k == key { assert !IsBelow(key, key); }
    }
  }

  lemma OutsideKey(k: string, key: string)
    requires k != key
    ensures Split(key, '.') <= Split(k, '.') <==> IsBelow(k, key)
  {
    if Split(key, '.') == Split(k, '.') { SplitInjective(key, k, '.'); }
  }

  /** The maps after a new minimal key. */
  lemma SpinesReplaced(at: map<Path, Obj>, at': map<Path, Obj>, done: set<string>, key: string)
    requires SpinesOf(at, Minimal(done)) && key !in done && forall a :: a in done ==> !IsBelow(key, a)
    requires at'.Keys == Outside(at, Split(key, '.')) + Prefixes(Split(key, '.'))
    ensures SpinesOf(at', Minimal(done + {key}))
  {
    var kp := Split(key, '.');
    MinimalReplaced(done, key);
    forall p ensures p in at' <==> p == [] || exists k :: k in Minimal(done + {key}) && ProperPrefix(p, Split(k, '.')) {
      SpineReplaced(at, at', done, key, p);
    }
  }

  lemma PrefixOf(p: Path, k: Path)
    ensures p in Prefixes(k) <==> ProperPrefix(p, k)
  {
    if ProperPrefix(p, k) { assert p == k[..|p|]; }
  }

  lemma SpineReplaced(at: map<Path, Obj>, at': map<Path, Obj>, done: set<string>, key: string, p: Path)
    requires SpinesOf(at, Minimal(done)) && key !in done
    requires at'.Keys == Outside(at, Split(key, '.')) + Prefixes(Split(key, '.'))
    requires forall k :: k in Minimal(done + {key}) <==> k == key || (k in Minimal(done) && !IsBelow(k, key))
    ensures p in at' <==> p == [] || exists k :: k in Minimal(done + {key}) && ProperPrefix(p, Split(k, '.'))
  {
    var kp := Split(key, '.');
    PrefixOf(p, kp);
    if p in at && !(kp <= p) && p != [] && !ProperPrefix(p, kp) {
      var k :| k in Minimal(done) && ProperPrefix(p, Split(k, '.'));
      if IsBelow(k, key) { BothPrefixes(p, kp, Split(k, '.')); }
      assert k in Minimal(done + {key});
    }
    if k :| k in Minimal(done + {key}) && k != key && ProperPrefix(p, Split(k, '.')) {
      assert p in at;
      PrefixBelow(kp, p, Split(k, '.'));
    }
    assert ProperPrefix(p, kp) ==> key in Minimal(done + {key});
  }

  lemma PrefixBelow(q: Path, p: Path, r: Path)
    ensures q <= p && ProperPrefix(p, r) ==> ProperPrefix(q, r)
  {
    if q <= p && ProperPrefix(p, r) { assert r[..|q|] == p[..|q|]; }
  }

  /** Of two prefixes of one path one is a prefix of the other. */
  lemma BothPrefixes(p: Path, q: Path, r: Path)
    requires ProperPrefix(p, r) && ProperPrefix(q, r)
    ensures q <= p || ProperPrefix(p, q)
  {
    assert p == r[..|p|] && q == r[..|q|];
    if |q| <= |p| { assert p[..|q|] == q; } else { assert q[..|p|] == p; }
  }

  lemma LeafReplaced(leaf: map<Path, Val>, done: set<string>, now: set<string>, key: string, p: Path)
    requires LeavesOf(leaf, Minimal(done)) && forall k :: k in now <==>
      k == key || (k in Minimal(done) && !IsBelow(k, key))
    ensures p in Outside(leaf, Split(key, '.')) || p == Split(key, '.') <==> exists k :: k in now && p == Split(k, '.')
  {
    if p in leaf {
      var k :| k in Minimal(done) && p == Split(k, '.');
      if k != key { OutsideKey(k, key); }
    }
    if k :| k in now && p == Split(k, '.') && k != key { OutsideKey(k, key); }
    assert key in now;
  }

  /** The leaves after a new minimal key. */
  lemma LeavesReplaced(leaf: map<Path, Val>, leaf': map<Path, Val>, done: set<string>, key: string)
    requires LeavesOf(leaf, Minimal(done)) && key !in done && forall a :: a in done ==> !IsBelow(key, a)
    requires leaf'.Keys == Outside(leaf, Split(key, '.')) + {Split(key, '.')}
    ensures LeavesOf(leaf', Minimal(done + {key}))
  {
    MinimalReplaced(done, key);
    var now := Minimal(done + {key});
    forall p ensures p in leaf' <==> exists k :: k in now && p == Split(k, '.') {
      LeafReplaced(leaf, done, now, key, p);
      assert p in leaf' <==> p in leaf'.Keys;
    }
  }

  // ---- What the leaves look like ----

  /** The leaf at k looks like the value stored under k. */
  ghost predicate LeafSame(h: Heap, flat: map<string, Val>, t: Heap, shape: Shape, k: string) {
    k in flat && Split(k, '.') in shape.leaf && Same(h, flat[k], t, shape.leaf[Split(k, '.')])
  }

  /** The value stored under a already holds, at the rest of b's path, what looks like the value stored under b. */
  ghost predicate Agrees(h: Heap, flat: map<string, Val>, a: string, b: string)
    requires a in flat && b in flat && |Split(a, '.')| <= |Split(b, '.')|
  {
    LooksLike(h, Follow(h, flat[a], KeyPath(Split(b, '.')[|Split(a, '.')|..])), h, flat[b])
  }

  /** Whenever one key extends another, their values agree. */
  ghost predicate Consistent(h: Heap, flat: map<string, Val>) {
    forall a, b :: a in flat && b in flat && IsBelow(b, a) ==> Agrees(h, flat, a, b)
  }

  /** A deep copy is a region of its own, and looks like what it was copied from. */
  lemma CopySame(h: Heap, v: Val, m: map<Obj, Obj>, r: Val, copied: Heap)
    requires IsDeepCopy(h, v, m, r, copied)
    ensures OwnCopies(copied, r) && Same(h, v, copied, r)
  {
    forall c | c in copied.Keys ensures BodyIn(copied[c], copied.Keys) {
      var o :| o in m && m[o] == c;
      assert IsImage(m, h[o], copied[c]);
    }
    forall q ensures Obs(h, v, q) == Obs(copied, r, q) {
      PathsAgree(h, v, m, copied, q);
      if Follow(h, v, q).Some? { KindCopied(h, m, copied, Follow(h, v, q).value); }
    }
  }

  lemma KindCopied(h: Heap, m: map<Obj, Obj>, copied: Heap, v: Val)
    requires ValIn(v, m.Keys) && forall o :: o in m ==> o in h && m[o] in copied && IsImage(m, h[o], copied[m[o]])
    ensures KindOf(copied, CopyOf(m, v)) == KindOf(h, v)
  {
    if v.Ref? { assert IsImage(m, h[v.obj], copied[m[v.obj]]); }
  }

  /** Where the leaf looks like the stored value, a change of the leaf is noticed if and only if the values disagree. */
  lemma HitMeans(h: Heap, flat: map<string, Val>, t: Heap, t': Heap, leaf: Val, leaf': Val, copies: Heap, x: Val,
                 a: string, b: string)
    requires a in flat && b in flat && IsBelow(b, a)
    requires Same(h, flat[a], t, leaf) && Same(h, flat[b], copies, x)
    requires Same(t, leaf, t', leaf') <==>
      LooksLike(t, Follow(t, leaf, KeyPath(Split(b, '.')[|Split(a, '.')|..])), copies, x)
    ensures Same(h, flat[a], t', leaf') <==> Agrees(h, flat, a, b)
  {
    var rest := KeyPath(Split(b, '.')[|Split(a, '.')|..]);
    AgreesThere(h, flat[a], t, leaf, rest, h, flat[b], copies, x);
    if Same(h, flat[a], t', leaf') {
      SameSymmetric(h, flat[a], t, leaf);
      SameTransitive(t, leaf, h, flat[a], t', leaf');
    }
    if Same(t, leaf, t', leaf') { SameTransitive(h, flat[a], t, leaf, t', leaf'); }
  }

  lemma SameSymmetric(t: Heap, v: Val, t': Heap, w: Val)
    requires Same(t, v, t', w)
    ensures Same(t', w, t, v)
  {
    forall q ensures Obs(t', w, q) == Obs(t, v, q) { assert Obs(t, v, q) == Obs(t', w, q); }
  }

  /** Values that look the same look the same at every path. */
  lemma AgreesThere(t: Heap, v: Val, t': Heap, v': Val, rest: seq<Access>, u: Heap, w: Val, u': Heap, w': Val)
    requires Same(t, v, t', v') && Same(u, w, u', w')
    ensures LooksLike(t, Follow(t, v, rest), u, w) <==> LooksLike(t', Follow(t', v', rest), u', w')
  {
    assert Obs(t, v, rest) == Obs(t', v', rest);
    forall q ensures Obs(t, v, rest + q) == Obs(t', v', rest + q) && Obs(u, w, q) == Obs(u', w', q) {}
    forall q
      ensures Follow(t, v, rest).Some? ==> Obs(t, Follow(t, v, rest).value, q) == Obs(t', Follow(t', v', rest).value, q)
    {
      ObsAppend(t, v, rest, q);
      ObsAppend(t', v', rest, q);
    }
    LooksBothWays(t, Follow(t, v, rest), u, w, t', Follow(t', v', rest), u', w');
  }

  lemma LooksBothWays(t: Heap, x: Option<Val>, u: Heap, w: Val, t': Heap, x': Option<Val>, u': Heap, w': Val)
    requires x.Some? <==> x'.Some?
    requires forall q :: Obs(u, w, q) == Obs(u', w', q)
    requires forall q :: x.Some? ==> Obs(t, x.value, q) == Obs(t', x'.value, q)
    ensures LooksLike(t, x, u, w) <==> LooksLike(t', x', u', w')
  {
    if x.Some? {
      if Same(t, x.value, u, w) {
        forall q ensures Obs(t', x'.value, q) == Obs(u', w', q) { assert Obs(t, x.value, q) == Obs(u, w, q); }
      }
      if Same(t', x'.value, u', w') {
        forall q ensures Obs(t, x.value, q) == Obs(u, w, q) { assert Obs(t', x'.value, q) == Obs(u', w', q); }
      }
    }
  }

  // ---- One more key ----

  /** The insertion of key ended in the region of the leaf at the key a. */
  ghost predicate HitsKey(t: Heap, t': Heap, shape: Shape, key: string, x: Val, copies: Heap, shape': Shape,
                          a: string) {
    && IsBelow(key, a)
    && HitLeaf(t, t', shape.at, shape.leaf, shape.region, Split(key, '.'), x, copies, shape'.at, shape'.leaf,
         shape'.region, Split(a, '.'))
  }

  /** It ended in the region of some leaf. */
  ghost predicate HitsSome(t: Heap, t': Heap, done: set<string>, shape: Shape, key: string, x: Val, copies: Heap,
                           shape': Shape) {
    exists a :: IsMinimal(done, a) && HitsKey(t, t', shape, key, x, copies, shape', a)
  }

  /** The insertion of key made it a leaf. */
  ghost predicate MakesLeaf(t: Heap, t': Heap, shape: Shape, key: string, x: Val, copies: Heap, shape': Shape) {
    NewLeaf(t, t', shape.at, shape.leaf, shape.region, Split(key, '.'), x, copies, shape'.at, shape'.leaf,
      shape'.region)
  }

  /** One more key: the shape of the view, and which of its leaves still look like the stored values. */
  lemma ShapeStep(h: Heap, flat: map<string, Val>, t: Heap, t': Heap, nested: Obj, done: set<string>, shape: Shape,
                  key: string,
                  m: map<Obj, Obj>, x: Val, copies: Heap, trace: seq<Place>)
    returns (shape': Shape)
    requires Shaped(t, nested, done, shape) && done <= flat.Keys && key in flat && key !in done
    requires IsDeepCopy(h, flat[key], m, x, copies) && Inserts(t, nested, Split(key, '.'), x, copies, t', trace)
    ensures Shaped(t', nested, done + {key}, shape')
    ensures (forall a :: a in done ==> !IsBelow(key, a)) ==> MakesLeaf(t, t', shape, key, x, copies, shape')
    ensures (exists a :: a in done && IsBelow(key, a)) ==> HitsSome(t, t', done, shape, key, x, copies, shape')
  {
    var Shape(at, leaf, region) := shape;
    var kp := Split(key, '.');
    CopySame(h, flat[key], m, x, copies);
    assert [] + kp == kp;
    var at', leaf', region', hit := InsertTree(t, t', nested, at, leaf, region, [], kp, x, copies, trace);
    shape' := Shape(at', leaf', region');
    if hit.Some? {
      var a := HitKey(done, key, at, leaf, hit.value);
      MinimalUnchanged(done, key, a);
      assert HitsKey(t, t', shape, key, x, copies, shape', a);
    } else {
      NoKeyBefore(done, key, leaf);
      SpinesReplaced(at, at', done, key);
      LeavesReplaced(leaf, leaf', done, key);
    }
  }

  lemma HitKey(done: set<string>, key: string, at: map<Path, Obj>, leaf: map<Path, Val>, p: Path) returns (a: string)
    requires LeavesOf(leaf, Minimal(done)) && p in leaf && ProperPrefix(p, Split(key, '.'))
    ensures IsMinimal(done, a) && IsBelow(key, a) && p == Split(a, '.')
  {
    a :| a in Minimal(done) && p == Split(a, '.');
  }

  lemma NoKeyBefore(done: set<string>, key: string, leaf: map<Path, Val>)
    requires LeavesOf(leaf, Minimal(done)) && forall p :: p in leaf ==> !ProperPrefix(p, Split(key, '.'))
    ensures forall a :: a in done ==> !IsBelow(key, a)
  {
    forall a | a in done ensures !IsBelow(key, a) {
      var b := SomeMinimal(done, a);
      assert b in Minimal(done) && Split(b, '.') in leaf;
      if IsBelow(key, a) && b != a { PrefixTransitive(Split(b, '.'), Split(a, '.'), Split(key, '.')); }
    }
  }

  // ---- Leaves over an insertion ----

  /** A leaf whose region is untouched looks as it did. */
  lemma LeafStays(h: Heap, flat: map<string, Val>, t: Heap, t': Heap, nested: Obj, done: set<string>, shape: Shape,
                  shape': Shape, kept: set<Path>, k: string)
    requires Shaped(t, nested, done, shape) && LeafSame(h, flat, t, shape, k) && Split(k, '.') in kept
    requires LeavesKept(t, t', shape.leaf, shape.region, shape'.leaf, shape'.region, kept)
    ensures LeafSame(h, flat, t', shape', k)
  {
    var p := Split(k, '.');
    var v, r := shape.leaf[p], shape.region[p];
    assert RegionAt(t, shape.at, v, r);
    RegionSame(t, t', r, v);
    SameTransitive(h, flat[k], t, v, t', v);
  }

  /** A new leaf looks like its value. */
  lemma NewLeafSame(h: Heap, flat: map<string, Val>, t: Heap, t': Heap, shape: Shape, key: string, m: map<Obj, Obj>,
                    x: Val, copies: Heap, shape': Shape)
    requires key in flat && IsDeepCopy(h, flat[key], m, x, copies) && MakesLeaf(t, t', shape, key, x, copies, shape')
    ensures LeafSame(h, flat, t', shape', key)
  {
    CopySame(h, flat[key], m, x, copies);
    RegionSame(copies, t', copies.Keys, x);
    SameTransitive(h, flat[key], copies, x, t', x);
  }

  /** Another leaf that is still one keeps its looks. */
  lemma OtherLeafSame(h: Heap, flat: map<string, Val>, t: Heap, t': Heap, nested: Obj, done: set<string>, shape: Shape,
                      key: string,
                      x: Val, copies: Heap, shape': Shape, k: string)
    requires Shaped(t, nested, done, shape) && LeafSame(h, flat, t, shape, k) && k != key && !IsBelow(k, key)
    requires MakesLeaf(t, t', shape, key, x, copies, shape')
      || exists a :: a != k && HitsKey(t, t', shape, key, x, copies, shape', a)
    ensures LeafSame(h, flat, t', shape', k)
  {
    OutsideKey(k, key);
    if MakesLeaf(t, t', shape, key, x, copies, shape') {
      LeafStays(h, flat, t, t', nested, done, shape, shape', Outside(shape.leaf, Split(key, '.')), k);
    } else {
      var a :| a != k && HitsKey(t, t', shape, key, x, copies, shape', a);
      if Split(a, '.') == Split(k, '.') { SplitInjective(a, k, '.'); }
      LeafStays(h, flat, t, t', nested, done, shape, shape', shape.leaf.Keys - {Split(a, '.')}, k);
    }
  }

  /** The leaf that the insertion ends in keeps its looks if and only if the values agree. */
  lemma HitLeafSame(h: Heap, flat: map<string, Val>, t: Heap, t': Heap, shape: Shape, key: string, m: map<Obj, Obj>,
                    x: Val, copies: Heap, shape': Shape, a: string)
    requires LeafSame(h, flat, t, shape, a) && key in flat && IsDeepCopy(h, flat[key], m, x, copies)
    requires HitsKey(t, t', shape, key, x, copies, shape', a)
    ensures LeafSame(h, flat, t', shape', a) <==> Agrees(h, flat, a, key)
  {
    CopySame(h, flat[key], m, x, copies);
    HitMeans(h, flat, t, t', shape.leaf[Split(a, '.')], shape'.leaf[Split(a, '.')], copies, x, a, key);
  }

  // ---- What holds after the first keys of an order ----

  /** While all values agree, every leaf looks like its value. */
  ghost predicate AllSame(h: Heap, flat: map<string, Val>, t: Heap, done: set<string>, shape: Shape) {
    forall k :: k in Minimal(done) ==> LeafSame(h, flat, t, shape, k)
  }

  /** The last key looks like its value, if it extends none of all keys. */
  ghost predicate LastSame(h: Heap, flat: map<string, Val>, t: Heap, order: seq<string>, shape: Shape) {
    order != [] && IsMinimal(flat.Keys, order[|order| - 1]) ==> LeafSame(h, flat, t, shape, order[|order| - 1])
  }

  /** The key before it, if the last extends it, looks like its value if and only if the two values agree. */
  ghost predicate LastPair(h: Heap, flat: map<string, Val>, t: Heap, order: seq<string>, shape: Shape) {
    |order| >= 2 ==>
      var a, b := order[|order| - 2], order[|order| - 1];
      b in flat && IsMinimal(flat.Keys, a) && IsBelow(b, a) ==>
        (LeafSame(h, flat, t, shape, a) <==> Agrees(h, flat, a, b))
  }

  /** The keys in some order. */
  ghost predicate IsOrder(flat: map<string, Val>, order: seq<string>) {
    NoDup(order) && Elements(order) == flat.Keys
  }

  /** The view that the keys of order make, inserted in this order. */
  ghost predicate IsResult(h: Heap, t: Heap, flat: map<string, Val>, order: seq<string>, nested: Obj, shape: Shape) {
    && Shaped(t, nested, Elements(order), shape)
    && (Consistent(h, flat) ==> AllSame(h, flat, t, Elements(order), shape))
    && LastSame(h, flat, t, order, shape) && LastPair(h, flat, t, order, shape)
  }

  lemma AllSameStep(h: Heap, flat: map<string, Val>, t: Heap, t': Heap, nested: Obj, done: set<string>, shape: Shape,
                    key: string,
                    m: map<Obj, Obj>, x: Val, copies: Heap, shape': Shape)
    requires Shaped(t, nested, done, shape) && done <= flat.Keys && key in flat && key !in done
    requires IsDeepCopy(h, flat[key], m, x, copies)
    requires Consistent(h, flat) && AllSame(h, flat, t, done, shape)
    requires (forall a :: a in done ==> !IsBelow(key, a)) ==> MakesLeaf(t, t', shape, key, x, copies, shape')
    requires (exists a :: a in done && IsBelow(key, a)) ==> HitsSome(t, t', done, shape, key, x, copies, shape')
    ensures AllSame(h, flat, t', done + {key}, shape')
  {
    if a :| IsMinimal(done, a) && HitsKey(t, t', shape, key, x, copies, shape', a) {
      MinimalUnchanged(done, key, a);
      forall k | k in Minimal(done) ensures LeafSame(h, flat, t', shape', k) {
        assert !IsBelow(k, key) by { NotBetween(done, key, a, k); }
        if k == a {
          HitLeafSame(h, flat, t, t', shape, key, m, x, copies, shape', a);
        } else {
          OtherLeafSame(h, flat, t, t', nested, done, shape, key, x, copies, shape', k);
        }
      }
    } else {
      MinimalReplaced(done, key);
      NewLeafSame(h, flat, t, t', shape, key, m, x, copies, shape');
      forall k | k in Minimal(done + {key}) && k != key ensures LeafSame(h, flat, t', shape', k) {
        OtherLeafSame(h, flat, t, t', nested, done, shape, key, x, copies, shape', k);
      }
    }
  }

  lemma NotBetween(done: set<string>, key: string, a: string, k: string)
    requires a in done && IsBelow(key, a) && IsMinimal(done, k)
    ensures !IsBelow(k, key)
  {
    if IsBelow(k, key) { PrefixTransitive(Split(a, '.'), Split(key, '.'), Split(k, '.')); }
  }

  /** A key extends at most one minimal key. */
  lemma OneMinimal(done: set<string>, key: string, a: string, b: string)
    requires IsMinimal(done, a) && IsMinimal(done, b) && IsBelow(key, a) && IsBelow(key, b)
    ensures a == b
  {
    BothPrefixes(Split(a, '.'), Split(b, '.'), Split(key, '.'));
    BothPrefixes(Split(b, '.'), Split(a, '.'), Split(key, '.'));
    assert !IsBelow(a, b) && !IsBelow(b, a);
    if |Split(a, '.')| == |Split(b, '.')| { SplitInjective(a, b, '.'); }
  }

  /** The leaf hit is that of a, if a extends none of the keys and key extends a. */
  lemma HitsLast(h: Heap, flat: map<string, Val>, t: Heap, t': Heap, done: set<string>, shape: Shape, key: string,
                 m: map<Obj, Obj>, x: Val, copies: Heap, shape': Shape, a: string)
    requires key in flat && IsDeepCopy(h, flat[key], m, x, copies) && LeafSame(h, flat, t, shape, a)
    requires IsMinimal(done, a) && IsBelow(key, a) && HitsSome(t, t', done, shape, key, x, copies, shape')
    ensures LeafSame(h, flat, t', shape', a) <==> Agrees(h, flat, a, key)
  {
    var b :| IsMinimal(done, b) && HitsKey(t, t', shape, key, x, copies, shape', b);
    OneMinimal(done, key, a, b);
    HitLeafSame(h, flat, t, t', shape, key, m, x, copies, shape', a);
  }

  lemma LastPairStep(h: Heap, flat: map<string, Val>, t: Heap, t': Heap, order: seq<string>, shape: Shape, key: string,
                     m: map<Obj, Obj>, x: Val, copies: Heap, shape': Shape)
    requires Elements(order) <= flat.Keys && key in flat && IsDeepCopy(h, flat[key], m, x, copies)
    requires LastSame(h, flat, t, order, shape)
    requires (exists a :: a in Elements(order) && IsBelow(key, a)) ==>
      HitsSome(t, t', Elements(order), shape, key, x, copies, shape')
    ensures LastPair(h, flat, t', order + [key], shape')
  {
    if order != [] {
      var a, longer := order[|order| - 1], order + [key];
      assert longer[|longer| - 2] == a && longer[|longer| - 1] == key && a in Elements(order);
      if IsMinimal(flat.Keys, a) && IsBelow(key, a) {
        assert IsMinimal(Elements(order), a);
        HitsLast(h, flat, t, t', Elements(order), shape, key, m, x, copies, shape', a);
      }
    }
  }

  lemma LastSameStep(h: Heap, flat: map<string, Val>, t: Heap, t': Heap, order: seq<string>, shape: Shape, key: string,
                     m: map<Obj, Obj>, x: Val, copies: Heap, shape': Shape)
    requires Elements(order) <= flat.Keys && key in flat && IsDeepCopy(h, flat[key], m, x, copies)
    requires (forall a :: a in Elements(order) ==> !IsBelow(key, a)) ==> MakesLeaf(t, t', shape, key, x, copies, shape')
    ensures LastSame(h, flat, t', order + [key], shape')
  {
    var longer := order + [key];
    assert longer[|longer| - 1] == key;
    if IsMinimal(flat.Keys, key) { NewLeafSame(h, flat, t, t', shape, key, m, x, copies, shape'); }
  }

  lemma ElementsAppend(order: seq<string>, key: string)
    ensures Elements(order + [key]) == Elements(order) + {key}
  {
  }

  /** One more key of the order. */
  lemma ResultStep(h: Heap, flat: map<string, Val>, t: Heap, t': Heap, nested: Obj, order: seq<string>, shape: Shape,
                   key: string,
                   m: map<Obj, Obj>, x: Val, copies: Heap, trace: seq<Place>)
    returns (shape': Shape)
    requires IsResult(h, t, flat, order, nested, shape) && Elements(order) <= flat.Keys && key in flat && key !in order
    requires IsDeepCopy(h, flat[key], m, x, copies) && Inserts(t, nested, Split(key, '.'), x, copies, t', trace)
    ensures IsResult(h, t', flat, order + [key], nested, shape')
    ensures (forall a :: a in order ==> !IsBelow(key, a)) ==> MakesLeaf(t, t', shape, key, x, copies, shape')
  {
    shape' := ShapeStep(h, flat, t, t', nested, Elements(order), shape, key, m, x, copies, trace);
    ElementsAppend(order, key);
    if Consistent(h, flat) {
      AllSameStep(h, flat, t, t', nested, Elements(order), shape, key, m, x, copies, shape');
    }
    LastSameStep(h, flat, t, t', order, shape, key, m, x, copies, shape');
    LastPairStep(h, flat, t, t', order, shape, key, m, x, copies, shape');
  }

  lemma EmptyResult(h: Heap, flat: map<string, Val>, t: Heap, nested: Obj)
    requires t == map[nested := MapBody(map[])]
    ensures IsResult(h, t, flat, [], nested, Shape(map[[] := nested], map[], map[]))
  {
    var at, leaf: map<Path, Val> := map[[] := nested], map[];
    forall p, s | p in at ensures EntryOk(t, at, leaf, p, s) { assert Child(p, s) != []; }
    assert Minimal({}) == {};
  }

  // ---- What a reader of the view can tell ----

  /** What a reader finds from a map of the tree on. */
  lemma TreeObs(t: Heap, n: Obj, at: map<Path, Obj>, leaf: map<Path, Val>, p: Path, q: seq<Access>)
    requires IsTree(t, n, at, leaf) && p in at
    ensures q == [] ==> Obs(t, Ref(at[p]), q) == Some(MapKind)
    ensures q != [] && q[0].Index? ==> Obs(t, Ref(at[p]), q) == None
    ensures q != [] && q[0].Key? ==>
      var c := Child(p, q[0].name);
      Obs(t, Ref(at[p]), q) ==
        if c in at then Obs(t, Ref(at[c]), q[1..]) else if c in leaf then Obs(t, leaf[c], q[1..]) else None
  {
    if q != [] && q[0].Key? {
      assert EntryOk(t, at, leaf, p, q[0].name);
    }
  }

  /** Both trees have the same paths, and what lies at their leaves looks the same. */
  ghost predicate SameParts(t: Heap, s: Shape, t': Heap, s': Shape) {
    s.at.Keys == s'.at.Keys && s.leaf.Keys == s'.leaf.Keys && forall c :: c in s.leaf ==>
      Same(t, s.leaf[c], t', s'.leaf[c])
  }

  /** Two trees look the same if their leaves do. */
  lemma {:induction false} SameBelow(t: Heap, n: Obj, s: Shape, t': Heap, n': Obj, s': Shape, p: Path, q: seq<Access>)
    requires IsTree(t, n, s.at, s.leaf) && IsTree(t', n', s'.at, s'.leaf) && SameParts(t, s, t', s') && p in s.at
    ensures Obs(t, Ref(s.at[p]), q) == Obs(t', Ref(s'.at[p]), q)
    decreases |q|
  {
    TreeObs(t, n, s.at, s.leaf, p, q);
    TreeObs(t', n', s'.at, s'.leaf, p, q);
    if q != [] && q[0].Key? {
      var c := Child(p, q[0].name);
      if c in s.at {
        SameBelow(t, n, s, t', n', s', c, q[1..]);
      } else if c in s.leaf {
        assert Obs(t, s.leaf[c], q[1..]) == Obs(t', s'.leaf[c], q[1..]);
      }
    }
  }

  lemma SamePaths(s: Shape, s': Shape, keys: set<string>)
    requires SpinesOf(s.at, keys) && SpinesOf(s'.at, keys) && LeavesOf(s.leaf, keys) && LeavesOf(s'.leaf, keys)
    ensures s.at.Keys == s'.at.Keys && s.leaf.Keys == s'.leaf.Keys
  {
    forall c ensures (c in s.at <==> c in s'.at) && (c in s.leaf <==> c in s'.leaf) {}
  }

  /** If all values agree, the view looks the same whatever the order of the keys. */
  lemma OrderIsIrrelevant(h: Heap, flat: map<string, Val>, t: Heap, order: seq<string>, n: Obj, s: Shape,
                          t': Heap, order': seq<string>, n': Obj, s': Shape)
    requires IsResult(h, t, flat, order, n, s) && IsResult(h, t', flat, order', n', s')
    requires Elements(order) == Elements(order') == flat.Keys && Consistent(h, flat)
    ensures Same(t, Ref(n), t', Ref(n'))
  {
    SamePaths(s, s', Minimal(flat.Keys));
    forall c | c in s.leaf ensures Same(t, s.leaf[c], t', s'.leaf[c]) {
      var k :| k in Minimal(flat.Keys) && c == Split(k, '.');
      assert LeafSame(h, flat, t, s, k) && LeafSame(h, flat, t', s', k);
      SameSymmetric(h, flat[k], t, s.leaf[c]);
      SameTransitive(t, s.leaf[c], h, flat[k], t', s'.leaf[c]);
    }
    forall q ensures Obs(t, Ref(n), q) == Obs(t', Ref(n'), q) {
      SameBelow(t, n, s, t', n', s', [], q);
    }
  }

  // ---- If not all values agree, the order matters ----

  /** Values that disagree do so at a key that extends no other. */
  lemma {:induction false} DisagreeAtMinimal(h: Heap, flat: map<string, Val>, a: string, b: string)
    returns (a': string, b': string)
    requires a in flat && b in flat && IsBelow(b, a) && !Agrees(h, flat, a, b)
    ensures a' in flat && b' in flat && IsBelow(b', a') && !Agrees(h, flat, a', b') && IsMinimal(flat.Keys, a')
    decreases |Split(a, '.')|
  {
    if d :| d in flat && IsBelow(a, d) {
      PrefixTransitive(Split(d, '.'), Split(a, '.'), Split(b, '.'));
      if Agrees(h, flat, d, a) && Agrees(h, flat, d, b) {
        AgreeTogether(h, flat, d, a, b);
      }
      if !Agrees(h, flat, d, a) {
        a', b' := DisagreeAtMinimal(h, flat, d, a);
      } else {
        a', b' := DisagreeAtMinimal(h, flat, d, b);
      }
    } else {
      a', b' := a, b;
    }
  }

  /** Two values that agree with one above them agree with each other. */
  lemma AgreeTogether(h: Heap, flat: map<string, Val>, d: string, a: string, b: string)
    requires d in flat && a in flat && b in flat && IsBelow(a, d) && IsBelow(b, a)
    requires |Split(d, '.')| <= |Split(b, '.')| && Agrees(h, flat, d, a) && Agrees(h, flat, d, b)
    ensures Agrees(h, flat, a, b)
  {
    var dp, ap, bp := Split(d, '.'), Split(a, '.'), Split(b, '.');
    var first, second := KeyPath(ap[|dp|..]), KeyPath(bp[|ap|..]);
    assert bp[|dp|..] == ap[|dp|..] + bp[|ap|..];
    assert KeyPath(bp[|dp|..]) == first + second;
    FollowAppend(h, flat[d], first, second);
    var v := Follow(h, flat[d], first).value;
    assert Obs(h, v, second) == Obs(h, flat[a], second);
    forall q ensures Obs(h, Follow(h, flat[a], second).value, q) == Obs(h, flat[b], q) {
      ObsAppend(h, v, second, q);
      ObsAppend(h, flat[a], second, q);
      assert Obs(h, v, second + q) == Obs(h, flat[a], second + q);
      assert Obs(h, Follow(h, v, second).value, q) == Obs(h, flat[b], q);
    }
  }

  lemma TwoMore(rest: seq<string>, a: string, b: string, keys: set<string>)
    requires NoDup(rest) && Elements(rest) == keys - {a, b} && a in keys && b in keys && a != b
    ensures NoDup(rest + [a] + [b]) && Elements(rest + [a] + [b]) == keys
  {
    assert a !in Elements(rest) && b !in Elements(rest);
    assert Elements(rest + [a] + [b]) == Elements(rest) + {a, b};
  }

  /** Two orders of the keys, if not all values agree. */
  lemma DifferentOrders(h: Heap, flat: map<string, Val>)
    returns (order: seq<string>, order': seq<string>, rest: seq<string>, a: string, b: string)
    requires !Consistent(h, flat)
    ensures IsOrder(flat, order) && IsOrder(flat, order')
    ensures order == rest + [a] + [b] && order' == rest + [b] + [a]
    ensures a in flat && b in flat && IsBelow(b, a) && !Agrees(h, flat, a, b) && IsMinimal(flat.Keys, a)
  {
    var a0, b0 :| a0 in flat && b0 in flat && IsBelow(b0, a0) && !Agrees(h, flat, a0, b0);
    a, b := DisagreeAtMinimal(h, flat, a0, b0);
    rest := AnyOrder(flat.Keys - {a, b});
    order, order' := rest + [a] + [b], rest + [b] + [a];
    TwoMore(rest, a, b, flat.Keys);
    TwoMore(rest, b, a, flat.Keys);
  }

  /** The views they give can be told apart by a reader. */
  lemma OrderMatters(h: Heap, flat: map<string, Val>, rest: seq<string>, a: string, b: string,
                     t: Heap, n: Obj, s: Shape, t': Heap, n': Obj, s': Shape)
    requires a in flat && b in flat && IsBelow(b, a) && !Agrees(h, flat, a, b) && IsMinimal(flat.Keys, a)
    requires IsResult(h, t, flat, rest + [a] + [b], n, s) && IsResult(h, t', flat, rest + [b] + [a], n', s')
    requires Elements(rest + [a] + [b]) == Elements(rest + [b] + [a]) == flat.Keys
    ensures !Same(t, Ref(n), t', Ref(n'))
  {
    assert (rest + [a] + [b])[|rest|] == a && (rest + [a] + [b])[|rest| + 1] == b;
    assert (rest + [b] + [a])[|rest| + 1] == a;
    assert LeafSame(h, flat, t', s', a) && !LeafSame(h, flat, t, s, a);
    if Same(t, Ref(n), t', Ref(n')) {
      LeavesSame(t, n, s, t', n', s', flat.Keys, a);
      var p := Split(a, '.');
      SameSymmetric(t, s.leaf[p], t', s'.leaf[p]);
      SameTransitive(h, flat[a], t', s'.leaf[p], t, s.leaf[p]);
    }
  }

  lemma LeavesSame(t: Heap, n: Obj, s: Shape, t': Heap, n': Obj, s': Shape, done: set<string>, a: string)
    requires Shaped(t, n, done, s) && Shaped(t', n', done, s') && IsMinimal(done, a) && Same(t, Ref(n), t', Ref(n'))
    ensures Split(a, '.') in s.leaf && Split(a, '.') in s'.leaf
    ensures Same(t, s.leaf[Split(a, '.')], t', s'.leaf[Split(a, '.')])
  {
    var p := Split(a, '.');
    assert a in Minimal(done);
    TreeLookup(t, n, s.at, s.leaf, p);
    TreeLookup(t', n', s'.at, s'.leaf, p);
    forall q ensures Obs(t, s.leaf[p], q) == Obs(t', s'.leaf[p], q) {
      ObsAppend(t, Ref(n), KeyPath(p), q);
      ObsAppend(t', Ref(n'), KeyPath(p), q);
      assert Obs(t, Ref(n), KeyPath(p) + q) == Obs(t', Ref(n'), KeyPath(p) + q);
    }
  }

  // ---- Both directions ----

  datatype View = View(heap: Heap, root: Obj, shape: Shape)

  /** For every order of the keys, the view that they make in this order. */
  ghost predicate ViewsOf(h: Heap, flat: map<string, Val>, view: seq<string> -> View) {
    forall order :: IsOrder(flat, order) ==>
      IsResult(h, view(order).heap, flat, order, view(order).root, view(order).shape)
  }

  ghost predicate LookAlike(a: View, b: View) {
    Same(a.heap, Ref(a.root), b.heap, Ref(b.root))
  }

  lemma TwoOrdersDiffer(h: Heap, flat: map<string, Val>, view: seq<string> -> View)
    returns (order: seq<string>, order': seq<string>)
    requires ViewsOf(h, flat, view) && !Consistent(h, flat)
    ensures IsOrder(flat, order) && IsOrder(flat, order') && !LookAlike(view(order), view(order'))
  {
    var rest, a, b;
    order, order', rest, a, b := DifferentOrders(h, flat);
    var v, w := view(order), view(order');
    OrderMatters(h, flat, rest, a, b, v.heap, v.root, v.shape, w.heap, w.root, w.shape);
  }

  lemma TwoOrdersAgree(h: Heap, flat: map<string, Val>, view: seq<string> -> View, order: seq<string>,
                       order': seq<string>)
    requires ViewsOf(h, flat, view) && Consistent(h, flat) && IsOrder(flat, order) && IsOrder(flat, order')
    ensures LookAlike(view(order), view(order'))
  {
    var v, w := view(order), view(order');
    OrderIsIrrelevant(h, flat, v.heap, order, v.root, v.shape, w.heap, order', w.root, w.shape);
  }

  /** The views of all orders look the same if and only if all values agree. */
  lemma OrderIsIrrelevantIff(h: Heap, flat: map<string, Val>, view: seq<string> -> View)
    requires ViewsOf(h, flat, view)
    ensures Consistent(h, flat) <==>
      forall order, order' :: IsOrder(flat, order) && IsOrder(flat, order') ==> LookAlike(view(order), view(order'))
  {
    if Consistent(h, flat) {
      forall order, order' | IsOrder(flat, order) && IsOrder(flat, order')
        ensures LookAlike(view(order), view(order'))
      {
        TwoOrdersAgree(h, flat, view, order, order');
      }
    } else {
      var order, order' := TwoOrdersDiffer(h, flat, view);
    }
  }

  /** Scalars under a key and under one that extends it never agree. */
  lemma ScalarsDisagree(h: Heap, flat: map<string, Val>, a: string, b: string)
    requires a in flat && b in flat && IsBelow(b, a) && flat[a].Scalar?
    ensures !Consistent(h, flat)
  {
    var rest := Split(b, '.')[|Split(a, '.')|..];
    FollowStops(h, flat[a], rest);
    assert !Agrees(h, flat, a, b);
  }

  /** So the order matters for a state with the keys a and a.b. */
  lemma SomeStateDisagrees()
    ensures IsBelow("a.b", "a")
    ensures !Consistent(map[], map["a" := Scalar("1"), "a.b" := Scalar("2")])
  {
    var flat := map["a" := Scalar("1"), "a.b" := Scalar("2")];
    SplitJoin(["a"], '.');
    SplitJoin(["a", "b"], '.');
    assert Join(["a"], '.') == "a" && Join(["a", "b"], '.') == "a.b";
    ScalarsDisagree(map[], flat, "a", "a.b");
  }
}
