/** The store that tasks share: reads hand out copies, writes replace entries. */
module MemoryStore {
  import opened Prelude
  import opened DeepCopies
  import opened StateTree
  import opened StateShape
  import opened StateStore

  datatype Error = KeyNotFound

  class MemoryStateStore {
    var data: map<string, Val>

    constructor ()
      ensures data == map[]
    {
      data := map[];
    }

    /** Every stored value lives in the heap h. */
    ghost predicate StoredIn(h: Heap)
      reads this
    {
      forall k :: k in data ==> ValIn(data[k], h.Keys)
    }

    /** A deep copy of the value stored under key. */
    method Get(key: string, ghost h: Heap) returns (value: Val, found: bool, ghost m: map<Obj, Obj>)
      requires Closed(h) && Snapshot(h) && StoredIn(h)
      ensures found <==> key in data
      ensures found ==> IsDeepCopy(h, data[key], m, value, Bodies(m.Values)) && fresh(m.Values)
      ensures !found ==> value == Nil
      ensures Snapshot(h)
    {
      m := map[];
      if key !in data {
        return Nil, false, m;
      }
      value, m := DeepCopy(data[key], h);
      found := true;
    }

    /** The keys in the order of some iteration over the map. */
    method SomeOrder() returns (order: seq<string>)
      ensures IsOrder(data, order)
    {
      order := [];
      var todo := data.Keys;
      while todo != {}
        invariant NoDup(order) && Elements(order) + todo == data.Keys && Elements(order) !! todo
        decreases todo
      {
        var key :| key in todo;
        assert key !in Elements(order);
        ElementsAppend(order, key);
        order := order + [key];
        todo := todo - {key};
      }
    }

    /** A fresh nested view of the whole state; the store and the values in it stay as they are. */
    method GetAll(ghost h: Heap)
      returns (nested: Obj, ghost own: set<Obj>, ghost t: Heap, ghost order: seq<string>, ghost shape: Shape,
        ghost maps: map<string, map<Obj, Obj>>)
      requires Closed(h) && Snapshot(h) && StoredIn(h)
      ensures Snapshot(h) && fresh(own) && nested in own && t == Bodies(own) && Closed(t)
      ensures IsOrder(data, order) && IsResult(h, t, data, order, nested, shape)
      ensures PrefixFree(data.Keys) ==> IsView(h, t, data, data.Keys, nested, shape.at, shape.leaf, maps)
    {
      var keys := SomeOrder();
      order := keys;
      nested, own, t, shape, maps := Unflatten(data, keys, h);
    }

    method Set(key: string, value: Val)
      modifies this
      ensures data == old(data)[key := value]
    {
      data := data[key := value];
    }

    /** Removes the key, or reports that it is not there. */
    method Delete(key: string) returns (err: Option<Error>)
      modifies this
      ensures err == if key in old(data) then None else Some(KeyNotFound)
      ensures data == old(data) - {key}
    {
      if key !in data {
        return Some(KeyNotFound);
      }
      data := data - {key};
      err := None;
    }

    /** Replaces the whole state; no map at all counts as the empty one. */
    method Load(loaded: Option<map<string, Val>>)
      modifies this
      ensures data == match loaded case None => map[] case Some(d) => d
    {
      data := map[];
      if loaded.Some? { data := loaded.value; }
    }
  }
}
