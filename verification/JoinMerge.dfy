/** From a combination to the record that is sent: fields merged flat, or one entry per stream. */
module JoinMerge {
  import opened Prelude
  import opened JoinRows

  datatype Strategy = Flat | Nested(nestingKeys: map<string, string>)

  datatype Entry = Field(value: string) | Record(rec: Option<Rec>)

  type Joined = map<string, Entry>

  // ---- The order in which streams are merged ----

  /** Lexicographic order of strings. */
  predicate Below(a: string, b: string) {
    b != "" && (a == "" || a[0] < b[0] || (a[0] == b[0] && Below(a[1..], b[1..])))
  }

  lemma {:induction false} BelowTotal(a: string, b: string)
    ensures Below(a, b) || Below(b, a) || a == b
    ensures !(Below(a, b) && Below(b, a)) && !Below(a, a)
  {
    if a != "" && b != "" {
      BelowTotal(a[1..], b[1..]);
      assert a == [a[0]] + a[1..] && b == [b[0]] + b[1..];
    }
    if a != "" { BelowTotal(a[1..], a[1..]); }
  }

  lemma {:induction false} BelowTransitive(a: string, b: string, c: string)
    requires Below(a, b) && Below(b, c)
    ensures Below(a, c)
  {
    if a != "" && a[0] == b[0] == c[0] { BelowTransitive(a[1..], b[1..], c[1..]); }
  }

  /**
   a comes before b if it is a proper prefix of it, or at the first place where they differ has the
   smaller character.
   */
  lemma {:induction false} BelowMeans(a: string, b: string)
    ensures Below(a, b) <==> (a <= b && a != b) || exists n :: SmallerAt(a, b, n)
  {
    if a != "" && b != "" {
      BelowMeans(a[1..], b[1..]);
      assert a == [a[0]] + a[1..] && b == [b[0]] + b[1..];
      if a[0] == b[0] {
        if n: nat :| SmallerAt(a[1..], b[1..], n) {
          assert a[..n + 1] == [a[0]] + a[1..][..n] && b[..n + 1] == [b[0]] + b[1..][..n];
          assert SmallerAt(a, b, n + 1);
        }
        if n: nat :| SmallerAt(a, b, n) {
          assert a[1..][..n - 1] == a[..n][1..] && b[1..][..n - 1] == b[..n][1..];
          assert SmallerAt(a[1..], b[1..], n - 1);
        }
        assert a <= b <==> a[1..] <= b[1..];
      } else {
        assert a[0] < b[0] ==> SmallerAt(a, b, 0);
        if n: nat :| SmallerAt(a, b, n) { assert n > 0 ==> a[..n][0] == b[..n][0]; }
      }
    }
  }

  /** They agree before place n, and there a has the smaller character. */
  predicate SmallerAt(a: string, b: string, n: nat) {
    n < |a| && n < |b| && a[..n] == b[..n] && a[n] < b[n]
  }

  predicate IsLeast(s: set<string>, m: string) {
    m in s && forall x :: x in s ==> x == m || Below(m, x)
  }

  /** The least name of a non-empty set. */
  method Least(s: set<string>) returns (m: string)
    requires s != {}
    ensures IsLeast(s, m)
  {
    m :| m in s;
    var todo := s - {m};
    while todo != {}
      invariant todo <= s && IsLeast(s - todo, m)
      decreases todo
    {
      var x :| x in todo;
      BelowTotal(x, m);
      if Below(x, m) {
        forall y | y in s - (todo - {x}) ensures y == x || Below(x, y) {
          if y != x && y != m { BelowTransitive(x, m, y); }
        }
        m := x;
      }
      todo := todo - {x};
    }
    assert s - {} == s;
  }

  // ---- Merging ----

  /** The stream name has a record in the combination, with the field f. */
  predicate Offers(c: Combo, name: string, f: string) {
    name in c && c[name].Some? && f in c[name].value.fields
  }

  /** Every field comes from the last stream, by name, that has it; there are no other fields. */
  ghost predicate IsFlat(c: Combo, names: set<string>, j: Joined) {
    && (forall f :: f in j <==> exists n :: n in names && Offers(c, n, f))
    && forall n, f ::
         n in names && Offers(c, n, f) && (forall m :: m in names && Offers(c, m, f) ==> m == n || Below(m, n)) ==>
           j[f] == Field(c[n].value.fields[f])
  }

  /** Every stream with a nesting key puts its record, or nil, under that key. */
  ghost predicate IsNested(c: Combo, names: set<string>, keys: map<string, string>, j: Joined) {
    && (forall f :: f in j <==> exists n :: n in names && n in keys && keys[n] == f)
    && forall f :: f in j ==> exists n :: n in names && n in c && n in keys && keys[n] == f && j[f] == Record(c[n])
  }

  ghost predicate IsJoined(strategy: Strategy, c: Combo, j: Joined) {
    match strategy
    case Flat => IsFlat(c, c.Keys, j)
    case Nested(keys) => IsNested(c, c.Keys, keys, j)
  }

  method MergeFields(joined: Joined, fields: map<string, string>) returns (r: Joined)
    ensures r.Keys == joined.Keys + fields.Keys
    ensures forall f :: f in r ==> r[f] == if f in fields then Field(fields[f]) else joined[f]
  {
    r := joined;
    var todo := fields.Keys;
    while todo != {}
      invariant todo <= fields.Keys && r.Keys == joined.Keys + (fields.Keys - todo)
      invariant forall f :: f in r ==> r[f] == if f in fields && f !in todo then Field(fields[f]) else joined[f]
      decreases todo
    {
      var key :| key in todo;
      r := r[key := Field(fields[key])];
      todo := todo - {key};
    }
  }

  /** The next stream is above all those merged, so its fields win. */
  lemma MergeStep(c: Combo, done: set<string>, name: string, j: Joined, j': Joined)
    requires IsFlat(c, done, j) && name in c && name !in done && forall n :: n in done ==> Below(n, name)
    requires c[name].None? ==> j' == j
    requires c[name].Some? ==> j'.Keys == j.Keys + c[name].value.fields.Keys
    requires c[name].Some? ==> forall f :: f in j' ==>
      j'[f] == if f in c[name].value.fields then Field(c[name].value.fields[f]) else j[f]
    ensures IsFlat(c, done + {name}, j')
  {
    forall f ensures f in j' <==> exists n :: n in done + {name} && Offers(c, n, f) {
      if Offers(c, name, f) { assert name in done + {name}; }
      if n :| n in done && Offers(c, n, f) { assert n in done + {name}; }
    }
    forall n, f |
      && n in done + {name} && Offers(c, n, f)
      && forall m :: m in done + {name} && Offers(c, m, f) ==> m == n || Below(m, n)
      ensures j'[f] == Field(c[n].value.fields[f])
    {
      if Offers(c, name, f) {
        assert name in done + {name};
        BelowTotal(n, name);
      } else {
        assert forall m :: m in done && Offers(c, m, f) ==> m in done + {name};
      }
    }
  }

  method ConstructFlat(c: Combo) returns (joined: Joined)
    ensures IsFlat(c, c.Keys, joined)
  {
    joined := map[];
    var todo := c.Keys;
    while todo != {}
      invariant todo <= c.Keys && IsFlat(c, c.Keys - todo, joined)
      invariant forall n, m :: n in c.Keys - todo && m in todo ==> Below(n, m)
      decreases todo
    {
      var name := Least(todo);
      ghost var before, done := joined, c.Keys - todo;
      if c[name].Some? {
        joined := MergeFields(joined, c[name].value.fields);
      }
      MergeStep(c, done, name, before, joined);
      todo := todo - {name};
      assert c.Keys - todo == done + {name};
    }
    assert c.Keys - {} == c.Keys;
  }

  method ConstructNested(c: Combo, keys: map<string, string>) returns (joined: Joined)
    ensures IsNested(c, c.Keys, keys, joined)
  {
    joined := map[];
    var todo := c.Keys;
    while todo != {}
      invariant todo <= c.Keys && IsNested(c, c.Keys - todo, keys, joined)
      decreases todo
    {
      var name :| name in todo;
      ghost var before, done := joined, c.Keys - todo;
      if name in keys {
        joined := joined[keys[name] := Record(c[name])];
      }
      NestStep(c, done, name, keys, before, joined);
      todo := todo - {name};
      assert c.Keys - todo == done + {name};
    }
    assert c.Keys - {} == c.Keys;
  }

  lemma NestStep(c: Combo, done: set<string>, name: string, keys: map<string, string>, j: Joined, j': Joined)
    requires IsNested(c, done, keys, j) && name in c
    requires j' == if name in keys then j[keys[name] := Record(c[name])] else j
    ensures IsNested(c, done + {name}, keys, j')
  {
  }

  method ConstructJoinedRecord(strategy: Strategy, c: Combo) returns (joined: Joined)
    ensures IsJoined(strategy, c, joined)
  {
    match strategy {
      case Flat => joined := ConstructFlat(c);
      case Nested(keys) => joined := ConstructNested(c, keys);
    }
  }

  /** A field that two streams have comes from the one whose name sorts last; the name order is that of BelowMeans. */
  lemma LastNameWins(c: Combo, j: Joined, f: string, n: string)
    requires IsFlat(c, c.Keys, j) && n in c && c[n].Some? && f in c[n].value.fields
    requires forall m :: m in c && m != n && c[m].Some? && f in c[m].value.fields ==>
      (m <= n && m != n) || exists i :: SmallerAt(m, n, i)
    ensures f in j && j[f] == Field(c[n].value.fields[f])
  {
    assert Offers(c, n, f);
    forall m | m in c.Keys && Offers(c, m, f) ensures m == n || Below(m, n) { BelowMeans(m, n); }
  }

  // ---- The result does not depend on any map order ----

  lemma {:induction false} LastOffer(c: Combo, names: set<string>, f: string) returns (n: string)
    requires exists m :: m in names && Offers(c, m, f)
    ensures n in names && Offers(c, n, f) && forall m :: m in names && Offers(c, m, f) ==> m == n || Below(m, n)
    decreases names
  {
    var m :| m in names && Offers(c, m, f);
    if exists x :: x in names - {m} && Offers(c, x, f) {
      n := LastOffer(c, names - {m}, f);
      BelowTotal(m, n);
      if Below(n, m) {
        forall x | x in names && Offers(c, x, f) ensures x == m || Below(x, m) {
          if x != m && x != n { BelowTransitive(x, n, m); }
        }
        n := m;
      }
    } else {
      n := m;
      assert forall x :: x in names && x != m ==> x in names - {m};
    }
  }

  /** A flat merge is determined by its combination. */
  lemma FlatIsUnique(c: Combo, j: Joined, j': Joined)
    requires IsFlat(c, c.Keys, j) && IsFlat(c, c.Keys, j')
    ensures j == j'
  {
    forall f | f in j ensures f in j' && j'[f] == j[f] {
      var n := LastOffer(c, c.Keys, f);
    }
    forall f | f in j' ensures f in j {}
  }

  /**
   A nested merge is determined by its combination if and only if no two streams with different contents
   share a nesting key.
   */
  lemma NestedIsUnique(c: Combo, keys: map<string, string>)
    ensures (forall j, j' :: IsNested(c, c.Keys, keys, j) && IsNested(c, c.Keys, keys, j') ==> j == j') <==>
      (forall n, m :: n in c && m in c && n in keys && m in keys && keys[n] == keys[m] ==> c[n] == c[m])
  {
    if forall n, m :: n in c && m in c && n in keys && m in keys && keys[n] == keys[m] ==> c[n] == c[m] {
      forall j, j' | IsNested(c, c.Keys, keys, j) && IsNested(c, c.Keys, keys, j') ensures j == j' {
        forall f | f in j ensures f in j' && j[f] == j'[f] {}
        forall f | f in j' ensures f in j {}
      }
    }
    if n, m :| n in c && m in c && n in keys && m in keys && keys[n] == keys[m] && c[n] != c[m] {
      var j := NestedWith(c, keys, n);
      var j' := NestedWith(c, keys, m);
      assert j != j';
    }
  }

  /** Some map order lets the stream n have the last word. */
  lemma NestedWith(c: Combo, keys: map<string, string>, n: string) returns (j: Joined)
    requires n in c && n in keys
    ensures IsNested(c, c.Keys, keys, j) && keys[n] in j && j[keys[n]] == Record(c[n])
  {
    j := NestedSome(c, c.Keys - {n}, keys);
    NestStep(c, c.Keys - {n}, n, keys, j, j[keys[n] := Record(c[n])]);
    assert c.Keys - {n} + {n} == c.Keys;
    j := j[keys[n] := Record(c[n])];
  }

  lemma {:induction false} NestedSome(c: Combo, names: set<string>, keys: map<string, string>) returns (j: Joined)
    requires names <= c.Keys
    ensures IsNested(c, names, keys, j)
    decreases names
  {
    if names == {} {
      j := map[];
    } else {
      var n :| n in names;
      var j0 := NestedSome(c, names - {n}, keys);
      j := if n in keys then j0[keys[n] := Record(c[n])] else j0;
      NestStep(c, names - {n}, n, keys, j0, j);
      assert names - {n} + {n} == names;
    }
  }
}
