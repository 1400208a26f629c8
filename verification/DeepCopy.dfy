/**
 The deep copy that isolates readers from the shared state: a memoised copy of a heap of maps and
 slices that may share parts and contain cycles.
 */
module DeepCopies {
  import opened Prelude

  /** A value held in an interface: nothing, an immutable scalar, or a reference to a map or slice. */
  datatype Val = Nil | Scalar(text: string) | Ref(obj: Obj)

  datatype Body = MapBody(entries: map<string, Val>) | SliceBody(elems: seq<Val>)

  /** A map or slice on the heap. */
  class Obj {
    var body: Body

    constructor (body: Body)
      ensures this.body == body
    {
      this.body := body;
    }
  }

  /** The bodies of a set of objects at one moment. */
  type Heap = map<Obj, Body>

  // ---- References, and copies of values ----

  ghost predicate ValIn(v: Val, s: set<Obj>) {
    v.Ref? ==> v.obj in s
  }

  ghost predicate BodyIn(b: Body, s: set<Obj>) {
    match b
    case MapBody(entries) => forall k :: k in entries ==> ValIn(entries[k], s)
    case SliceBody(elems) => forall i :: 0 <= i < |elems| ==> ValIn(elems[i], s)
  }

  /** b refers to o. */
  ghost predicate Mentions(b: Body, o: Obj) {
    match b
    case MapBody(entries) => exists k :: k in entries && entries[k] == Ref(o)
    case SliceBody(elems) => exists i :: 0 <= i < |elems| && elems[i] == Ref(o)
  }

  ghost predicate Closed(h: Heap) {
    forall o :: o in h ==> BodyIn(h[o], h.Keys)
  }

  ghost predicate IsRefPath(h: Heap, p: seq<Obj>) {
    && p != [] && (forall i :: 0 <= i < |p| ==> p[i] in h)
    && forall i :: 0 <= i < |p| - 1 ==> Mentions(h[p[i]], p[i + 1])
  }

  ghost predicate ReachesBy(h: Heap, v: Val, o: Obj, older p: seq<Obj>) {
    v.Ref? && IsRefPath(h, p) && p[0] == v.obj && p[|p| - 1] == o
  }

  /** o can be reached from v by following references. */
  ghost predicate Reaches(h: Heap, v: Val, o: Obj) {
    exists p :: ReachesBy(h, v, o, p)
  }

  function CopyOf(m: map<Obj, Obj>, v: Val): Val {
    if v.Ref? && v.obj in m then Ref(m[v.obj]) else v
  }

  /** b' has the shape of b, with every reference replaced by the reference to its copy. */
  ghost predicate IsImage(m: map<Obj, Obj>, b: Body, b': Body) {
    && BodyIn(b, m.Keys)
    && match b
       case MapBody(entries) =>
         b'.MapBody? && b'.entries.Keys == entries.Keys
         && forall k :: k in entries ==> b'.entries[k] == CopyOf(m, entries[k])
       case SliceBody(elems) =>
         b'.SliceBody? && |b'.elems| == |elems|
         && forall i :: 0 <= i < |elems| ==> b'.elems[i] == CopyOf(m, elems[i])
  }

  ghost predicate Injective(m: map<Obj, Obj>) {
    forall a, b :: a in m && b in m && m[a] == m[b] ==> a == b
  }

  ghost predicate Extends(m: map<Obj, Obj>, m': map<Obj, Obj>) {
    m.Keys <= m'.Keys && forall o :: o in m ==> m'[o] == m[o]
  }

  lemma ReachesChild(h: Heap, o: Obj, child: Val, target: Obj)
    requires o in h && child.Ref? && Mentions(h[o], child.obj) && Reaches(h, child, target)
    ensures Reaches(h, Ref(o), target)
  {
    var p :| ReachesBy(h, child, target, p);
    var q := [o] + p;
    forall i | 0 <= i < |q| - 1 ensures Mentions(h[q[i]], q[i + 1]) {
      if i > 0 { assert q[i] == p[i - 1] && q[i + 1] == p[i]; }
    }
    assert ReachesBy(h, Ref(o), target, q);
  }

  // ---- The copy ----

  /** The copies made so far, shared by all recursive calls of one copy. */
  class Context {
    var copies: map<Obj, Obj>

    constructor ()
      ensures copies == map[]
    {
      copies := map[];
    }

    /** Copies are of objects of h, one each, and lie outside h. */
    ghost predicate Valid(h: Heap)
      reads this
    {
      && copies.Keys <= h.Keys && Injective(copies)
      && forall o :: o in copies ==> copies[o] !in h
    }
  }

  /** The heap as it was, with nothing in it changed since. */
  ghost predicate Snapshot(h: Heap)
    reads h.Keys
  {
    forall o :: o in h ==> o.body == h[o]
  }

  /** The objects of s have finished copies and are reachable from src. */
  ghost predicate Finished(h: Heap, src: Val, copies: map<Obj, Obj>, s: set<Obj>)
    reads set o | o in s && o in copies :: copies[o]
  {
    forall o :: o in s ==>
      o in h && o in copies && IsImage(copies, h[o], copies[o].body) && Reaches(h, src, o)
  }

  lemma StillFinished(h: Heap, src: Val, before: map<Obj, Obj>, now: map<Obj, Obj>, s: set<Obj>)
    requires Finished(h, src, before, s) && Extends(before, now)
    ensures Finished(h, src, now, s)
  {
  }

  lemma MoreFinished(h: Heap, src: Val, copies: map<Obj, Obj>, start: map<Obj, Obj>, before: map<Obj, Obj>)
    requires Finished(h, src, copies, before.Keys - start.Keys) && Finished(h, src, copies, copies.Keys - before.Keys)
    ensures Finished(h, src, copies, copies.Keys - start.Keys)
  {
  }

  method CopyVal(src: Val, ctx: Context, ghost h: Heap) returns (r: Val)
    requires Closed(h) && Snapshot(h) && ctx.Valid(h) && ValIn(src, h.Keys)
    modifies ctx
    ensures Snapshot(h) && ctx.Valid(h) && Extends(old(ctx.copies), ctx.copies)
    ensures ValIn(src, ctx.copies.Keys) && r == CopyOf(ctx.copies, src)
    ensures Finished(h, src, ctx.copies, ctx.copies.Keys - old(ctx.copies).Keys)
    ensures forall p :: p in ctx.copies && p !in old(ctx.copies) ==> fresh(ctx.copies[p])
    decreases h.Keys - ctx.copies.Keys, 1
  {
    match src {
      case Nil => r := Nil;
      case Scalar(_) => r := src;
      case Ref(o) =>
        if o in ctx.copies {
          r := Ref(ctx.copies[o]);
        } else {
          match o.body {
            case MapBody(_) => r := CopyMap(o, ctx, h);
            case SliceBody(_) => r := CopySlice(o, ctx, h);
          }
        }
    }
  }

  /** Copies one value that o holds: everything it reaches is copied first. */
  method CopyChild(o: Obj, value: Val, ctx: Context, ghost h: Heap) returns (r: Val)
    requires Closed(h) && Snapshot(h) && ctx.Valid(h) && o in ctx.copies
    requires ValIn(value, h.Keys) && (value.Ref? ==> Mentions(h[o], value.obj))
    modifies ctx
    ensures Snapshot(h) && ctx.Valid(h) && Extends(old(ctx.copies), ctx.copies)
    ensures ValIn(value, ctx.copies.Keys) && r == CopyOf(ctx.copies, value)
    ensures Finished(h, Ref(o), ctx.copies, ctx.copies.Keys - old(ctx.copies).Keys)
    ensures forall p :: p in ctx.copies && p !in old(ctx.copies) ==> fresh(ctx.copies[p])
    decreases h.Keys - ctx.copies.Keys, 2
  {
    r := CopyVal(value, ctx, h);
    forall p | p in ctx.copies && p !in old(ctx.copies) ensures Reaches(h, Ref(o), p) {
      ReachesChild(h, o, value, p);
    }
  }

  /** The same, when some of what o reaches has been copied since the copies were start. */
  method CopyPart(o: Obj, value: Val, ctx: Context, ghost h: Heap, ghost start: map<Obj, Obj>, ghost cpy: Obj)
    returns (r: Val)
    requires Closed(h) && Snapshot(h) && ctx.Valid(h) && o in ctx.copies && Extends(start, ctx.copies)
    requires ValIn(value, h.Keys) && (value.Ref? ==> Mentions(h[o], value.obj))
    requires Finished(h, Ref(o), ctx.copies, ctx.copies.Keys - start.Keys)
    modifies ctx
    ensures Snapshot(h) && ctx.Valid(h) && Extends(start, ctx.copies) && Extends(old(ctx.copies), ctx.copies)
    ensures ValIn(value, ctx.copies.Keys) && r == CopyOf(ctx.copies, value) && cpy.body == old(cpy.body)
    ensures Finished(h, Ref(o), ctx.copies, ctx.copies.Keys - start.Keys)
    ensures forall p :: p in ctx.copies && p !in old(ctx.copies) ==> fresh(ctx.copies[p])
    decreases h.Keys - ctx.copies.Keys, 3
  {
    ghost var before := ctx.copies;
    r := CopyChild(o, value, ctx, h);
    StillFinished(h, Ref(o), before, ctx.copies, before.Keys - start.Keys);
    MoreFinished(h, Ref(o), ctx.copies, start, before);
  }

  ghost predicate EntriesCopied(m: map<Obj, Obj>, entries: map<string, Val>, out: map<string, Val>, todo: set<string>) {
    && out.Keys == entries.Keys - todo
    && forall k :: k in out ==> ValIn(entries[k], m.Keys) && out[k] == CopyOf(m, entries[k])
  }

  lemma EntriesStep(before: map<Obj, Obj>, now: map<Obj, Obj>, entries: map<string, Val>, out: map<string, Val>,
                    todo: set<string>, key: string)
    requires EntriesCopied(before, entries, out, todo) && Extends(before, now)
    requires key in todo && key in entries && ValIn(entries[key], now.Keys)
    ensures EntriesCopied(now, entries, out[key := CopyOf(now, entries[key])], todo - {key})
  {
  }

  ghost predicate ElemsCopied(m: map<Obj, Obj>, elems: seq<Val>, out: seq<Val>, n: nat) {
    && |out| == |elems| && n <= |elems|
    && forall k :: 0 <= k < n ==> ValIn(elems[k], m.Keys) && out[k] == CopyOf(m, elems[k])
  }

  lemma ElemsStep(before: map<Obj, Obj>, now: map<Obj, Obj>, elems: seq<Val>, out: seq<Val>, n: nat)
    requires ElemsCopied(before, elems, out, n) && n < |elems| && Extends(before, now)
    requires ValIn(elems[n], now.Keys)
    ensures ElemsCopied(now, elems, out[n := CopyOf(now, elems[n])], n + 1)
  {
  }

  /** Changes the copy of o, which is still being filled; the copies finished since stay finished. */
  method Fill(cpy: Obj, body: Body, ghost o: Obj, ghost ctx: Context, ghost h: Heap, ghost start: map<Obj, Obj>)
    requires Snapshot(h) && ctx.Valid(h) && o in start && Extends(start, ctx.copies) && ctx.copies[o] == cpy
    requires Finished(h, Ref(o), ctx.copies, ctx.copies.Keys - start.Keys)
    modifies cpy
    ensures cpy.body == body && Snapshot(h)
    ensures Finished(h, Ref(o), ctx.copies, ctx.copies.Keys - start.Keys)
  {
    assert cpy !in h && forall p :: p in ctx.copies && p != o ==> ctx.copies[p] != cpy;
    cpy.body := body;
  }

  /** An unfilled copy of o, registered before anything that o refers to is copied. */
  method Register(o: Obj, body: Body, ctx: Context, ghost h: Heap) returns (cpy: Obj)
    requires Snapshot(h) && ctx.Valid(h) && o in h && o !in ctx.copies
    modifies ctx
    ensures fresh(cpy) && cpy.body == body && ctx.copies == old(ctx.copies)[o := cpy] && ctx.Valid(h) && Snapshot(h)
  {
    cpy := new Obj(body);
    ctx.copies := ctx.copies[o := cpy];
  }

  method CopyMap(o: Obj, ctx: Context, ghost h: Heap) returns (r: Val)
    requires Closed(h) && Snapshot(h) && ctx.Valid(h) && o in h && o !in ctx.copies && o.body.MapBody?
    modifies ctx
    ensures Snapshot(h) && ctx.Valid(h) && Extends(old(ctx.copies), ctx.copies)
    ensures o in ctx.copies && r == Ref(ctx.copies[o])
    ensures Finished(h, Ref(o), ctx.copies, ctx.copies.Keys - old(ctx.copies).Keys)
    ensures forall p :: p in ctx.copies && p !in old(ctx.copies) ==> fresh(ctx.copies[p])
    decreases h.Keys - ctx.copies.Keys, 0
  {
    ghost var before := ctx.copies;
    var cpy := Register(o, MapBody(map[]), ctx, h);
    assert h.Keys - ctx.copies.Keys < h.Keys - before.Keys by { assert o in h.Keys - before.Keys; }
    FillMap(o, cpy, ctx, h);
    assert ReachesBy(h, Ref(o), o, [o]);
    r := Ref(cpy);
  }

  /** Fills the registered copy of a map, entry by entry in any order. */
  method FillMap(o: Obj, cpy: Obj, ctx: Context, ghost h: Heap)
    requires Closed(h) && Snapshot(h) && ctx.Valid(h) && o in h && o in ctx.copies && ctx.copies[o] == cpy && cpy !in h
    requires h[o].MapBody? && cpy.body == MapBody(map[])
    modifies ctx, cpy
    ensures Snapshot(h) && ctx.Valid(h) && Extends(old(ctx.copies), ctx.copies)
    ensures IsImage(ctx.copies, h[o], cpy.body)
    ensures Finished(h, Ref(o), ctx.copies, ctx.copies.Keys - old(ctx.copies).Keys)
    ensures forall p :: p in ctx.copies && p !in old(ctx.copies) ==> fresh(ctx.copies[p])
    decreases h.Keys - ctx.copies.Keys, 4
  {
    ghost var start := ctx.copies;
    var entries := o.body.entries;
    var todo := entries.Keys;
    while todo != {}
      invariant todo <= entries.Keys && Snapshot(h) && ctx.Valid(h) && Extends(start, ctx.copies)
      invariant cpy.body.MapBody? && EntriesCopied(ctx.copies, entries, cpy.body.entries, todo)
      invariant Finished(h, Ref(o), ctx.copies, ctx.copies.Keys - start.Keys)
      invariant forall p :: p in ctx.copies && p !in start ==> fresh(ctx.copies[p])
      decreases todo
    {
      var key :| key in todo;
      ghost var before := ctx.copies;
      var value := CopyPart(o, entries[key], ctx, h, start, cpy);
      EntriesStep(before, ctx.copies, entries, cpy.body.entries, todo, key);
      Fill(cpy, MapBody(cpy.body.entries[key := value]), o, ctx, h, start);
      todo := todo - {key};
    }
  }

  method CopySlice(o: Obj, ctx: Context, ghost h: Heap) returns (r: Val)
    requires Closed(h) && Snapshot(h) && ctx.Valid(h) && o in h && o !in ctx.copies && o.body.SliceBody?
    modifies ctx
    ensures Snapshot(h) && ctx.Valid(h) && Extends(old(ctx.copies), ctx.copies)
    ensures o in ctx.copies && r == Ref(ctx.copies[o])
    ensures Finished(h, Ref(o), ctx.copies, ctx.copies.Keys - old(ctx.copies).Keys)
    ensures forall p :: p in ctx.copies && p !in old(ctx.copies) ==> fresh(ctx.copies[p])
    decreases h.Keys - ctx.copies.Keys, 0
  {
    ghost var before := ctx.copies;
    var cpy := Register(o, SliceBody(seq(|o.body.elems|, _ => Nil)), ctx, h);
    assert h.Keys - ctx.copies.Keys < h.Keys - before.Keys by { assert o in h.Keys - before.Keys; }
    FillSlice(o, cpy, ctx, h);
    assert ReachesBy(h, Ref(o), o, [o]);
    r := Ref(cpy);
  }

  /** Fills the registered copy of a slice, in order. */
  method FillSlice(o: Obj, cpy: Obj, ctx: Context, ghost h: Heap)
    requires Closed(h) && Snapshot(h) && ctx.Valid(h) && o in h && o in ctx.copies && ctx.copies[o] == cpy && cpy !in h
    requires h[o].SliceBody? && cpy.body == SliceBody(seq(|h[o].elems|, _ => Nil))
    modifies ctx, cpy
    ensures Snapshot(h) && ctx.Valid(h) && Extends(old(ctx.copies), ctx.copies)
    ensures IsImage(ctx.copies, h[o], cpy.body)
    ensures Finished(h, Ref(o), ctx.copies, ctx.copies.Keys - old(ctx.copies).Keys)
    ensures forall p :: p in ctx.copies && p !in old(ctx.copies) ==> fresh(ctx.copies[p])
    decreases h.Keys - ctx.copies.Keys, 4
  {
    ghost var start := ctx.copies;
    var elems := o.body.elems;
    for i := 0 to |elems|
      invariant Snapshot(h) && ctx.Valid(h) && Extends(start, ctx.copies)
      invariant cpy.body.SliceBody? && ElemsCopied(ctx.copies, elems, cpy.body.elems, i)
      invariant Finished(h, Ref(o), ctx.copies, ctx.copies.Keys - start.Keys)
      invariant forall p :: p in ctx.copies && p !in start ==> fresh(ctx.copies[p])
    {
      ghost var before := ctx.copies;
      var value := CopyPart(o, elems[i], ctx, h, start, cpy);
      ElemsStep(before, ctx.copies, elems, cpy.body.elems, i);
      Fill(cpy, SliceBody(cpy.body.elems[i := value]), o, ctx, h, start);
    }
  }

  // ---- What a copy is ----

  /**
   m maps exactly the objects reachable from src, one to one, to objects outside h; r is src seen
   through m, and each copy has the shape of its original.
   */
  ghost predicate IsDeepCopy(h: Heap, src: Val, m: map<Obj, Obj>, r: Val, copied: Heap) {
    && (forall o :: o in m ==> o in h) && Injective(m)
    && (forall o :: o in m ==> Reaches(h, src, o))
    && (forall o :: o in h && Reaches(h, src, o) ==> o in m)
    && (forall o :: o in m ==> m[o] !in h && m[o] in copied && IsImage(m, h[o], copied[m[o]]))
    && copied.Keys == m.Values
    && ValIn(src, m.Keys) && r == CopyOf(m, src)
  }

  lemma {:induction false} ClosedReaches(h: Heap, m: map<Obj, Obj>, p: seq<Obj>)
    requires IsRefPath(h, p) && p[0] in m
    requires forall o :: o in m ==> o in h && BodyIn(h[o], m.Keys)
    ensures p[|p| - 1] in m
  {
    if |p| > 1 {
      assert Mentions(h[p[0]], p[1]);
      var rest := p[1..];
      forall i | 0 <= i < |rest| - 1
        ensures Mentions(h[rest[i]], rest[i + 1])
      {
        assert Mentions(h[p[i + 1]], p[i + 2]);
      }
      ClosedReaches(h, m, rest);
    }
  }

  lemma CopiesAllReachable(h: Heap, src: Val, m: map<Obj, Obj>)
    requires ValIn(src, m.Keys) && forall o :: o in m ==> o in h && BodyIn(h[o], m.Keys)
    ensures forall o :: o in h && Reaches(h, src, o) ==> o in m
  {
    forall o | o in h && Reaches(h, src, o) ensures o in m {
      var p :| ReachesBy(h, src, o, p);
      ClosedReaches(h, m, p);
    }
  }

  /** The copy of any value over any finite heap of maps and slices; the old heap is left as it was. */
  method DeepCopy(src: Val, ghost h: Heap) returns (r: Val, ghost m: map<Obj, Obj>)
    requires Closed(h) && Snapshot(h) && ValIn(src, h.Keys)
    ensures Snapshot(h)
    ensures forall o :: o in m ==> fresh(m[o])
    ensures IsDeepCopy(h, src, m, r, map o | o in m.Values :: o.body)
  {
    m := map[];
    if src.Nil? {
      return Nil, m;
    }
    var ctx := new Context();
    r := CopyVal(src, ctx, h);
    m := ctx.copies;
    CopiesAllReachable(h, src, m);
  }

  // ---- What the reader of a copy sees ----

  datatype Access = Key(name: string) | Index(i: nat)

  /** The value found by following a path of map keys and slice indexes, if the path exists. */
  function Follow(h: Heap, v: Val, path: seq<Access>): Option<Val>
    decreases |path|
  {
    if path == [] then Some(v)
    else if !v.Ref? || v.obj !in h then None
    else match (h[v.obj], path[0])
         case (MapBody(entries), Key(k)) => if k in entries then Follow(h, entries[k], path[1..]) else None
         case (SliceBody(elems), Index(i)) => if i < |elems| then Follow(h, elems[i], path[1..]) else None
         case _ => None
  }

  /** Source and copy answer every path alike: the same scalar, or a reference and its copy, or nothing. */
  lemma {:induction false} PathsAgree(h: Heap, src: Val, m: map<Obj, Obj>, copied: Heap, path: seq<Access>)
    requires (forall o :: o in m ==> o in h && m[o] in copied && IsImage(m, h[o], copied[m[o]]))
    requires ValIn(src, m.Keys)
    ensures Follow(h, src, path).None? <==> Follow(copied, CopyOf(m, src), path).None?
    ensures Follow(h, src, path).Some? ==>
      var v := Follow(h, src, path).value;
      ValIn(v, m.Keys) && Follow(copied, CopyOf(m, src), path) == Some(CopyOf(m, v))
    decreases |path|
  {
    if path != [] && src.Ref? {
      var o := src.obj;
      assert IsImage(m, h[o], copied[m[o]]);
      match (h[o], path[0])
      case (MapBody(entries), Key(k)) => if k in entries { PathsAgree(h, entries[k], m, copied, path[1..]); }
      case (SliceBody(elems), Index(i)) => if i < |elems| { PathsAgree(h, elems[i], m, copied, path[1..]); }
      case _ =>
    }
  }

  /**
   Exactly the objects that the source reaches were copied. A reader of the copy sees the source's
   structure and sharing, cycles included, and never an object of the old heap: paths exist alike, scalars
   are equal, and two paths meet in the copy exactly if they meet in the source.
   */
  lemma CopyIsIndependent(h: Heap, src: Val, m: map<Obj, Obj>, r: Val, copied: Heap, path: seq<Access>,
                          other: seq<Access>)
    requires IsDeepCopy(h, src, m, r, copied)
    ensures forall o :: o in m <==> o in h && Reaches(h, src, o)
    ensures Follow(h, src, path).None? <==> Follow(copied, r, path).None?
    ensures Follow(copied, r, path).Some? && !Follow(copied, r, path).value.Ref? ==>
      Follow(copied, r, path) == Follow(h, src, path)
    ensures Follow(copied, r, path).Some? && Follow(copied, r, path).value.Ref? ==>
      Follow(copied, r, path).value.obj in copied && Follow(copied, r, path).value.obj !in h
    ensures Follow(h, src, path).Some? && Follow(h, src, other).Some? ==>
      (Follow(copied, r, path) == Follow(copied, r, other) <==> Follow(h, src, path) == Follow(h, src, other))
  {
    PathsAgree(h, src, m, copied, path);
    PathsAgree(h, src, m, copied, other);
  }
}
