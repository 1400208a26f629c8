/** The dependency graph of a playbook as a value: which tasks each task waits for, and why. */
module Graphs {
  import opened Prelude

  type TaskId = string

  /** A stream edge is met when the producer is dispatched, a state edge when it has finished. */
  datatype Kind = Stream | State

  datatype Graph = Graph(nodes: set<TaskId>, stream: map<TaskId, set<TaskId>>, state: map<TaskId, set<TaskId>>) {

    ghost predicate WellFormed() {
      && stream.Keys == nodes && state.Keys == nodes
      && (forall n, p :: n in stream && p in stream[n] ==> p in nodes)
      && (forall n, p :: n in state && p in state[n] ==> p in nodes)
    }

    /** The producers that task n waits for through edges of kind k. */
    function Deps(k: Kind, n: TaskId): set<TaskId> {
      var m := if k.Stream? then stream else state;
      if n in m then m[n] else {}
    }

    predicate Edge(p: TaskId, n: TaskId) {
      p in Deps(Stream, n) || p in Deps(State, n)
    }

    /** The consumers of p, over edges of either kind. */
    function RequiredBy(p: TaskId): set<TaskId> {
      set n | n in nodes && Edge(p, n)
    }

    /** The graph with one more edge of kind k, from p to n. */
    function WithEdge(k: Kind, p: TaskId, n: TaskId): Graph
      requires n in stream && n in state
    {
      if k.Stream? then this.(stream := stream[n := stream[n] + {p}]) else this.(state := state[n := state[n] + {p}])
    }

    /** Every task of p is a producer for the next one. */
    ghost predicate IsPath(p: seq<TaskId>) {
      && p != [] && (forall x :: x in p ==> x in nodes)
      && forall i :: 0 <= i < |p| - 1 ==> Edge(p[i], p[i + 1])
    }

    ghost predicate Reach(a: TaskId, b: TaskId) {
      exists p :: IsPath(p) && p[0] == a && p[|p| - 1] == b
    }

    ghost predicate IsCycle(p: seq<TaskId>) {
      IsPath(p) && |p| >= 2 && p[0] == p[|p| - 1]
    }

    ghost predicate Acyclic() {
      forall p :: !IsCycle(p)
    }

    /** m is in s and waits for nothing in s. */
    ghost predicate IsSource(s: set<TaskId>, m: TaskId) {
      m in s && forall q :: q in s ==> !Edge(q, m)
    }
  }

  /** What one more edge changes: the producers of n, and the consumers of p. */
  lemma WithEdgeEffect(g: Graph, k: Kind, p: TaskId, n: TaskId, h: Graph)
    requires g.WellFormed() && p in g.nodes && n in g.nodes && h == g.WithEdge(k, p, n)
    ensures h.WellFormed() && h.nodes == g.nodes
    ensures forall j, m :: h.Deps(j, m) == if j == k && m == n then g.Deps(k, n) + {p} else g.Deps(j, m)
    ensures forall q :: h.RequiredBy(q) == if q == p then g.RequiredBy(q) + {n} else g.RequiredBy(q)
  {
    forall q, m ensures h.Edge(q, m) <==> g.Edge(q, m) || (q == p && m == n) {}
  }

  lemma ReachStep(g: Graph, a: TaskId, b: TaskId, c: TaskId)
    requires g.Reach(a, b) && c in g.nodes && g.Edge(b, c)
    ensures g.Reach(a, c)
    ensures a == c ==> !g.Acyclic()
  {
    var p :| g.IsPath(p) && p[0] == a && p[|p| - 1] == b;
    var q := p + [c];
    assert g.IsPath(q) by {
      forall i | 0 <= i < |q| - 1 ensures g.Edge(q[i], q[i + 1]) {
        if i == |p| - 1 { assert q[i] == b && q[i + 1] == c; }
      }
    }
    assert q[0] == a && q[|q| - 1] == c;
    if a == c { assert g.IsCycle(q); }
  }

  lemma NoReturn(g: Graph, p: seq<TaskId>, i: nat)
    requires g.Acyclic() && g.IsPath(p) && 0 < i < |p|
    ensures p[i] != p[0]
  {
    var part := p[..i + 1];
    assert g.IsPath(part);
    assert !g.IsCycle(part);
  }

  /** Walking backwards inside s along a duplicate-free path must stop. */
  lemma {:induction false} WalkBack(g: Graph, s: set<TaskId>, p: seq<TaskId>) returns (m: TaskId)
    requires g.Acyclic() && s <= g.nodes
    requires g.IsPath(p) && NoDup(p) && forall x :: x in p ==> x in s
    ensures g.IsSource(s, m)
    decreases |s| - |p|
  {
    NoDupLength(p, s);
    m := p[0];
    if q :| q in s && g.Edge(q, m) {
      var longer := [q] + p;
      forall i | 0 <= i < |longer| - 1 ensures g.Edge(longer[i], longer[i + 1]) {
        if i == 0 { assert longer[0] == q && longer[1] == m; }
      }
      forall i | 0 <= i < |p| ensures p[i] != q { NoReturn(g, longer, i + 1); }
      assert NoDup(longer);
      NoDupLength(longer, s);
      m := WalkBack(g, s, longer);
    }
  }

  /** In an acyclic graph every non-empty set of tasks has one that waits for no other in the set. */
  lemma SourceExists(g: Graph, s: set<TaskId>) returns (m: TaskId)
    requires g.Acyclic() && s <= g.nodes && s != {}
    ensures g.IsSource(s, m)
  {
    var start :| start in s;
    assert g.IsPath([start]);
    m := WalkBack(g, s, [start]);
  }
}
