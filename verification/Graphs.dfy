/** Finite directed graphs: walks, cycles, topological orders and reachability from roots. */
module Graphs {
  import opened Types
  import opened Sequences

  datatype Graph = Graph(nodes: set<Id>, arcs: set<(Id, Id)>) {
    ghost predicate Valid() {
      forall a :: a in arcs ==> a.0 in nodes && a.1 in nodes
    }
  }

  function NodeSet(tasks: seq<TaskDefinition>): set<Id> {
    set t | t in tasks :: t.id
  }

  lemma IdsAreNodes(tasks: seq<TaskDefinition>)
    ensures forall n :: n in Ids(tasks) <==> n in NodeSet(tasks)
  {
    forall t | t in tasks ensures t.id in Ids(tasks) {
      var i :| 0 <= i < |tasks| && tasks[i] == t;
      assert Ids(tasks)[i] == t.id;
    }
  }

  /** Every edge as a pair, whether or not its ends are tasks. */
  function Arcs(edges: seq<Edge>): set<(Id, Id)> {
    set e | e in edges :: (e.source, e.target)
  }

  /** The targets of the edges that leave `n`, in the order of the edges. */
  function Targets(edges: seq<Edge>, n: Id): seq<Id> {
    if edges == [] then [] else
      (if edges[0].source == n then [edges[0].target] else []) + Targets(edges[1..], n)
  }

  lemma {:induction false} TargetsAppend(a: seq<Edge>, b: seq<Edge>, n: Id)
    ensures Targets(a + b, n) == Targets(a, n) + Targets(b, n)
  {
    if a == [] {
      assert a + b == b;
    } else {
      var all, rest := a + b, a[1..] + b;
      var first := if a[0].source == n then [a[0].target] else [];
      TargetsAppend(a[1..], b, n);
      assert all[0] == a[0] && all[1..] == rest;
      assert Targets(all, n) == first + Targets(rest, n);
      assert Targets(a, n) == first + Targets(a[1..], n);
    }
  }

  lemma {:induction false} TargetsAreArcs(edges: seq<Edge>, u: Id, v: Id)
    ensures v in Targets(edges, u) <==> (u, v) in Arcs(edges)
  {
    if edges != [] {
      TargetsAreArcs(edges[1..], u, v);
      assert Arcs(edges) == {(edges[0].source, edges[0].target)} + Arcs(edges[1..]) by {
        assert edges == [edges[0]] + edges[1..];
      }
    }
  }

  /** The graph restricted to task ids: edges with an unknown end are dropped. */
  function GraphOf(tasks: seq<TaskDefinition>, edges: seq<Edge>): (g: Graph)
    ensures g.Valid()
  {
    var nodes := NodeSet(tasks);
    Graph(nodes, set a | a in Arcs(edges) && a.0 in nodes && a.1 in nodes)
  }

  ghost predicate IsWalk(arcs: set<(Id, Id)>, p: seq<Id>) {
    p != [] && forall i, j :: 0 <= i < j < |p| && j == i + 1 ==> (p[i], p[j]) in arcs
  }

  /** A closed walk: each node has an edge to the next one and the last one to the first. */
  ghost predicate IsCycle(g: Graph, c: seq<Id>) {
    IsWalk(g.arcs, c) && (c[|c| - 1], c[0]) in g.arcs
  }

  ghost predicate IsSimpleCycle(g: Graph, c: seq<Id>) {
    IsCycle(g, c) && NoDuplicates(c)
  }

  ghost predicate Acyclic(g: Graph) {
    forall c :: !IsCycle(g, c)
  }

  ghost predicate OnCycle(g: Graph, n: Id) {
    exists c :: IsCycle(g, c) && n in c
  }

  /** Every node exactly once, and the source of every edge before its target. */
  ghost predicate IsTopologicalOrder(g: Graph, order: seq<Id>) {
    && NoDuplicates(order)
    && (forall n :: n in order <==> n in g.nodes)
    && (forall i, j :: 0 <= i < |order| && 0 <= j < |order| && (order[i], order[j]) in g.arcs ==> i < j)
  }

  function IndexOf(s: seq<Id>, x: Id): (i: nat)
    requires x in s
    ensures i < |s| && s[i] == x && x !in s[..i]
  {
    if s[0] == x then 0 else 1 + IndexOf(s[1..], x)
  }

  lemma ArcClimbs(g: Graph, order: seq<Id>, u: Id, v: Id)
    requires g.Valid() && IsTopologicalOrder(g, order) && (u, v) in g.arcs
    ensures u in order && v in order && IndexOf(order, u) < IndexOf(order, v)
  {
    assert u in g.nodes && v in g.nodes;
    assert (order[IndexOf(order, u)], order[IndexOf(order, v)]) in g.arcs;
  }

  /** Along a cycle the positions in a topological order would have to grow for ever. */
  lemma {:induction false} WalkClimbs(g: Graph, rank: map<Id, nat>, c: seq<Id>, k: nat)
    requires forall a :: a in g.arcs ==> a.0 in rank && a.1 in rank && rank[a.0] < rank[a.1]
    requires IsCycle(g, c) && k < |c|
    ensures c[0] in rank && c[k] in rank && rank[c[0]] + k <= rank[c[k]]
  {
    assert (c[|c| - 1], c[0]) in g.arcs;
    if k > 0 {
      WalkClimbs(g, rank, c, k - 1);
      assert (c[k - 1], c[k]) in g.arcs;
    }
  }

  lemma TopologicalOrderMeansAcyclic(g: Graph, order: seq<Id>)
    requires g.Valid() && IsTopologicalOrder(g, order)
    ensures Acyclic(g)
  {
    var rank: map<Id, nat> := map n | n in g.nodes :: IndexOf(order, n);
    forall a | a in g.arcs ensures a.0 in rank && a.1 in rank && rank[a.0] < rank[a.1] {
      ArcClimbs(g, order, a.0, a.1);
    }
    forall c | IsCycle(g, c) ensures false {
      WalkClimbs(g, rank, c, |c| - 1);
    }
  }

  /** A root is a task that no edge at all points to, not even one from an unknown task. */
  ghost predicate IsRoot(tasks: seq<TaskDefinition>, edges: seq<Edge>, n: Id) {
    n in NodeSet(tasks) && forall e :: e in edges ==> e.target != n
  }

  /** Reachability follows every edge, so a walk may pass through ids that are not tasks. */
  ghost predicate Reachable(tasks: seq<TaskDefinition>, edges: seq<Edge>, n: Id) {
    exists p :: IsWalk(Arcs(edges), p) && IsRoot(tasks, edges, p[0]) && p[|p| - 1] == n
  }

  lemma ReachableStep(tasks: seq<TaskDefinition>, edges: seq<Edge>, u: Id, v: Id)
    requires Reachable(tasks, edges, u) && (u, v) in Arcs(edges)
    ensures Reachable(tasks, edges, v)
  {
    var p :| IsWalk(Arcs(edges), p) && IsRoot(tasks, edges, p[0]) && p[|p| - 1] == u;
    var q := p + [v];
    assert IsWalk(Arcs(edges), q) && q[0] == p[0] && q[|q| - 1] == v;
  }

  lemma RootReachable(tasks: seq<TaskDefinition>, edges: seq<Edge>, n: Id)
    requires IsRoot(tasks, edges, n)
    ensures Reachable(tasks, edges, n)
  {
    assert IsWalk(Arcs(edges), [n]) && [n][0] == n;
  }

  /** A set that holds every root and is closed under the edges holds all that is reachable. */
  lemma {:induction false} ClosedHoldsWalk(tasks: seq<TaskDefinition>, edges: seq<Edge>, closed: set<Id>, p: seq<Id>)
    requires forall n :: IsRoot(tasks, edges, n) ==> n in closed
    requires forall e :: e in edges && e.source in closed ==> e.target in closed
    requires IsWalk(Arcs(edges), p) && IsRoot(tasks, edges, p[0])
    ensures p[|p| - 1] in closed
    decreases |p|
  {
    if |p| > 1 {
      var q := p[..|p| - 1];
      assert IsWalk(Arcs(edges), q) by {
        forall i | 0 <= i < |q| - 1 ensures (q[i], q[i + 1]) in Arcs(edges) { assert p[i] == q[i]; }
      }
      ClosedHoldsWalk(tasks, edges, closed, q);
      assert (p[|p| - 2], p[|p| - 1]) in Arcs(edges);
    }
  }

  /** In a topologically ordered graph every node is reachable from a root. */
  lemma {:induction false} OrderedIsReachable(tasks: seq<TaskDefinition>, edges: seq<Edge>, order: seq<Id>, i: nat)
    requires forall e :: e in edges ==> e.source in NodeSet(tasks) && e.target in NodeSet(tasks)
    requires IsTopologicalOrder(GraphOf(tasks, edges), order)
    requires i < |order|
    ensures Reachable(tasks, edges, order[i])
    decreases i
  {
    var n := order[i];
    assert n in order;
    if IsRoot(tasks, edges, n) {
      RootReachable(tasks, edges, n);
    } else {
      var e :| e in edges && e.target == n;
      ArcClimbs(GraphOf(tasks, edges), order, e.source, n);
      OrderedIsReachable(tasks, edges, order, IndexOf(order, e.source));
      ReachableStep(tasks, edges, e.source, n);
    }
  }
}
