/** Small shared vocabulary: optional values and counting facts about sets and sequences. */
module Prelude {

  datatype Option<+T> = None | Some(value: T)

  /** No element occurs twice. */
  ghost predicate NoDup<T>(s: seq<T>) {
    forall i, j :: 0 <= i < j < |s| ==> s[i] != s[j]
  }

  /** The elements of a sequence, as a set. */
  function Elements<T>(s: seq<T>): set<T> {
    set x | x in s
  }

  lemma EmptyOrNot<T>(s: seq<T>)
    ensures s == [] || exists x :: x in s
  {
    if s != [] { assert s[0] in s; }
  }

  lemma SubsetCard<T>(a: set<T>, b: set<T>)
    requires a <= b
    ensures |a| <= |b|
    ensures |a| == |b| ==> a == b
  {
    var rest := b - a;
    assert a + rest == b;
    assert |a| + |rest| == |b|;
  }

  /** Pigeonhole: a duplicate-free sequence is no longer than a set that holds its elements. */
  lemma {:induction false} NoDupLength<T>(s: seq<T>, bound: set<T>)
    requires NoDup(s) && forall x :: x in s ==> x in bound
    ensures |s| <= |bound|
  {
    if s != [] {
      var last := s[|s| - 1];
      forall x | x in s[..|s| - 1] ensures x in bound - {last} {}
      NoDupLength(s[..|s| - 1], bound - {last});
    }
  }

  lemma NoDupAppend<T>(s: seq<T>, t: seq<T>)
    requires NoDup(s) && NoDup(t)
    requires forall x :: x in s ==> x !in t
    ensures NoDup(s + t)
  {
    var u := s + t;
    forall i, j | 0 <= i < j < |u| ensures u[i] != u[j] {
      if i < |s| <= j {
        assert u[i] == s[i] && u[j] == t[j - |s|];
        assert u[i] in s;
      }
    }
  }

  /** The elements of a finite set can be listed. */
  lemma {:induction false} AnyOrder<T>(s: set<T>) returns (order: seq<T>)
    ensures NoDup(order) && Elements(order) == s
    decreases s
  {
    if s == {} {
      order := [];
    } else {
      var x :| x in s;
      var rest := AnyOrder(s - {x});
      order := rest + [x];
      assert x !in Elements(rest);
      assert Elements(order) == Elements(rest) + {x};
    }
  }

  lemma {:induction false} SameMultiset<T>(s: seq<T>, t: seq<T>)
    requires NoDup(s) && NoDup(t) && forall x :: x in s <==> x in t
    ensures multiset(s) == multiset(t)
  {
    forall x ensures multiset(s)[x] == multiset(t)[x] {
      CountNoDup(s, x);
      CountNoDup(t, x);
    }
  }

  lemma {:induction false} CountNoDup<T>(s: seq<T>, x: T)
    requires NoDup(s)
    ensures multiset(s)[x] == if x in s then 1 else 0
  {
    if s != [] {
      var init, last := s[..|s| - 1], s[|s| - 1];
      assert s == init + [last];
      CountNoDup(init, x);
    }
  }

  /** A sequence that takes each element at most as often as a duplicate-free one has no duplicates either. */
  lemma NoDupPart<T>(s: seq<T>, t: seq<T>)
    requires multiset(s) <= multiset(t) && NoDup(t)
    ensures NoDup(s) && forall x :: x in s ==> x in t
  {
    forall i, j | 0 <= i < j < |s| ensures s[i] != s[j] {
      assert s == s[..j] + [s[j]] + s[j + 1..] && s[i] == s[..j][i];
      CountNoDup(t, s[j]);
      assert multiset(s)[s[j]] <= multiset(t)[s[j]];
      assert multiset(s) == multiset(s[..j]) + multiset([s[j]]) + multiset(s[j + 1..]);
      assert s[i] in s[..j];
    }
    forall x | x in s ensures x in t { assert x in multiset(s) && x in multiset(t); }
  }

  // ---- Sums ----

  function Sum(s: seq<nat>): nat {
    if s == [] then 0 else Sum(s[..|s| - 1]) + s[|s| - 1]
  }

  lemma {:induction false} SumUpdate(s: seq<nat>, i: nat, v: nat)
    requires i < |s|
    ensures Sum(s[i := v]) == Sum(s) - s[i] + v
  {
    var init := s[..|s| - 1];
    if i < |init| {
      SumUpdate(init, i, v);
      assert s[i := v][..|s| - 1] == init[i := v];
    } else {
      assert s[i := v][..|s| - 1] == init;
    }
  }

  lemma {:induction false} SumAtMost(s: seq<nat>, t: seq<nat>)
    requires |s| == |t| && forall i :: 0 <= i < |s| ==> s[i] <= t[i]
    ensures Sum(s) <= Sum(t)
  {
    if s != [] { SumAtMost(s[..|s| - 1], t[..|t| - 1]); }
  }

  lemma {:induction false} SumZeros(n: nat)
    ensures Sum(seq(n, _ => 0)) == 0
  {
    if n > 0 {
      SumZeros(n - 1);
      assert seq<nat>(n, _ => 0)[..n - 1] == seq<nat>(n - 1, _ => 0);
    }
  }
}
