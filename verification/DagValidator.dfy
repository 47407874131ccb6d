/** Edge references, cycles, reachability and their combination (packages/shared/src/dag/dag-validator.ts). */
module DagValidator {
  import opened Types
  import opened Sequences
  import opened Graphs
  import opened DepthFirstSearches
  import TopologicalSorter

  // ----- Cycle detection -----

  /** Unlike the sorter, `detectCycles` searches from every white task, also after a cycle was found. */
  function SearchAll(adj: map<Id, seq<Id>>, s: Search, ids: seq<Id>): (r: Search)
    ensures s.cycleNodes <= r.cycleNodes
    decreases |ids|
  {
    if ids == [] then s
    else if ids[0] in InColor(s.color, White) then
      SearchAll(adj, Visit(adj, s.(path := []), ids[0]).0, ids[1..])
    else SearchAll(adj, s, ids[1..])
  }

  function Cycles(tasks: seq<TaskDefinition>, edges: seq<Edge>): seq<Option<Id>> {
    SearchAll(Adjacency(tasks, edges), Start(NodeSet(tasks)), Ids(tasks)).cycleNodes
  }

  /** Up to the first cycle the two loops over the tasks do the same. */
  lemma {:induction false} SearchAllAgrees(adj: map<Id, seq<Id>>, s: Search, ids: seq<Id>)
    ensures var (first, found) := TopologicalSorter.SearchUntilCycle(adj, s, ids);
            first.cycleNodes <= SearchAll(adj, s, ids).cycleNodes
            && (!found ==> first == SearchAll(adj, s, ids))
    decreases |ids|
  {
    if ids != [] {
      if ids[0] in InColor(s.color, White) {
        var (after, found) := Visit(adj, s.(path := []), ids[0]);
        if !found {
          SearchAllAgrees(adj, after, ids[1..]);
        }
      } else {
        SearchAllAgrees(adj, s, ids[1..]);
      }
    }
  }

  /** Empty exactly on acyclic graphs, and otherwise the list starts with a genuine simple cycle. */
  lemma CyclesAreDetected(tasks: seq<TaskDefinition>, edges: seq<Edge>)
    ensures Cycles(tasks, edges) == [] <==> Acyclic(GraphOf(tasks, edges))
    ensures Cycles(tasks, edges) != [] ==>
              exists c :: IsSimpleCycle(GraphOf(tasks, edges), c) && Known(c) <= Cycles(tasks, edges)
  {
    var g, adj, ids := GraphOf(tasks, edges), Adjacency(tasks, edges), Ids(tasks);
    AdjacencyRepresents(tasks, edges);
    TopologicalSorter.StartOnTrack(g);
    IdsAreNodes(tasks);
    TopologicalSorter.SearchFinishes(g, adj, Start(g.nodes), ids);
    SearchAllAgrees(adj, Start(g.nodes), ids);
    TopologicalSorter.ValidExactlyWhenAcyclic(tasks, edges);
    var (first, found) := TopologicalSorter.SearchUntilCycle(adj, Start(g.nodes), ids);
    if found {
      var c :| IsSimpleCycle(g, c) && first.cycleNodes == Known(c);
      assert |first.cycleNodes| == |c|;
    }
  }

  // ----- What the list holds after the first cycle -----

  ghost predicate Genuine(g: Graph, cycleNodes: seq<Option<Id>>) {
    forall x :: x in cycleNodes ==> x.Some? && OnCycle(g, x.value)
  }

  /** After a cycle some gray nodes are left that lie on no later path. */
  ghost predicate Loose(g: Graph, s: Search) {
    && s.color.Keys == g.nodes
    && NoDuplicates(s.path)
    && (s.path != [] ==> IsWalk(g.arcs, s.path))
    && (forall n :: n in s.path ==> n in s.color && s.color[n] == Gray)
    && (None !in s.cycleNodes ==> Genuine(g, s.cycleNodes))
  }

  ghost predicate KeepsLoose(g: Graph, s: Search, s': Search, found: bool) {
    && s'.color.Keys == g.nodes
    && (None !in s'.cycleNodes ==> Genuine(g, s'.cycleNodes))
    && (!found ==> Loose(g, s') && s'.path == s.path)
    && (!found ==> forall n :: n in s.color && s.color[n] != White ==> n in s'.color && s'.color[n] == s.color[n])
  }

  lemma EnterLoose(g: Graph, s: Search, n: Id)
    requires Loose(g, s) && n in InColor(s.color, White) && CanEnter(g, s, n)
    ensures Loose(g, Enter(s, n))
  {
    var s' := Enter(s, n);
    forall x ensures x in s'.path <==> x in s.path || x == n { }
  }

  lemma RecordLoose(g: Graph, s: Search, n: Id)
    requires Loose(g, s) && s.path != [] && CanEnter(g, s, n)
    ensures var all := AddAll(s.cycleNodes, Loop(s.path, n)); None !in all ==> Genuine(g, all)
  {
    var all := AddAll(s.cycleNodes, Loop(s.path, n));
    if n in s.path {
      GrayClosesCycle(g, s, n);
      var c := s.path[IndexOf(s.path, n)..];
      assert c[0] == n;
      forall x | x in Loop(s.path, n) ensures x.Some? && OnCycle(g, x.value) {
        assert x.value in c;
      }
    } else {
      assert Loop(s.path, n)[0] == None;
    }
  }

  lemma {:induction false} VisitLoose(g: Graph, adj: map<Id, seq<Id>>, s: Search, n: Id)
    requires Represents(adj, g) && Loose(g, s)
    requires n in InColor(s.color, White) && CanEnter(g, s, n)
    ensures var (s', found) := Visit(adj, s, n); KeepsLoose(g, s, s', found)
    decreases InColor(s.color, White), 0
  {
    var entered := Enter(s, n);
    assert InColor(entered.color, White) == InColor(s.color, White) - {n};
    EnterLoose(g, s, n);
    VisitAllLoose(g, adj, entered, n, adj[n]);
    var (after, found) := VisitAll(adj, entered, adj[n]);
    if !found {
      assert Pop(after.path) == s.path;
    }
  }

  lemma {:induction false} VisitAllLoose(g: Graph, adj: map<Id, seq<Id>>, s: Search, u: Id, neighbors: seq<Id>)
    requires Represents(adj, g) && Loose(g, s)
    requires s.path != [] && s.path[|s.path| - 1] == u
    requires forall v :: v in neighbors && v in g.nodes ==> (u, v) in g.arcs
    ensures var (s', found) := VisitAll(adj, s, neighbors); KeepsLoose(g, s, s', found)
    decreases InColor(s.color, White), |neighbors| + 1
  {
    if neighbors != [] {
      var n := neighbors[0];
      assert n in neighbors;
      if n in s.color && s.color[n] == Gray {
        RecordLoose(g, s, n);
      } else if n in s.color && s.color[n] == White {
        VisitLoose(g, adj, s, n);
        var (after, found) := Visit(adj, s, n);
        if !found {
          VisitAllLoose(g, adj, after, u, neighbors[1..]);
        }
      } else {
        VisitAllLoose(g, adj, s, u, neighbors[1..]);
      }
    }
  }

  lemma {:induction false} SearchAllLoose(g: Graph, adj: map<Id, seq<Id>>, s: Search, ids: seq<Id>)
    requires Represents(adj, g) && Loose(g, s)
    requires forall n :: n in ids ==> n in g.nodes
    ensures var all := SearchAll(adj, s, ids).cycleNodes; None !in all ==> Genuine(g, all)
    decreases |ids|
  {
    if ids != [] {
      var n := ids[0];
      if n in InColor(s.color, White) {
        VisitLoose(g, adj, s.(path := []), n);
        var after := Visit(adj, s.(path := []), n).0;
        PathIsReset(adj, after, ids[1..]);
        SearchAllLoose(g, adj, after.(path := []), ids[1..]);
      } else {
        SearchAllLoose(g, adj, s, ids[1..]);
      }
    }
  }

  lemma {:induction false} PathIsReset(adj: map<Id, seq<Id>>, s: Search, ids: seq<Id>)
    ensures SearchAll(adj, s, ids).cycleNodes == SearchAll(adj, s.(path := []), ids).cycleNodes
    decreases |ids|
  {
    if ids != [] {
      if ids[0] in InColor(s.color, White) {
        assert s.(path := []).(path := []) == s.(path := []);
      } else {
        PathIsReset(adj, s, ids[1..]);
      }
    }
  }

  /** The list names only nodes that lie on cycles exactly when `undefined` did not slip into it. */
  lemma GenuineWithoutUndefined(tasks: seq<TaskDefinition>, edges: seq<Edge>)
    ensures Genuine(GraphOf(tasks, edges), Cycles(tasks, edges)) <==> None !in Cycles(tasks, edges)
  {
    var g := GraphOf(tasks, edges);
    AdjacencyRepresents(tasks, edges);
    TopologicalSorter.StartOnTrack(g);
    IdsAreNodes(tasks);
    SearchAllLoose(g, Adjacency(tasks, edges), Start(g.nodes), Ids(tasks));
  }

  function Node(id: Id): TaskDefinition {
    TaskDefinition(id, "", "", "", 0, None)
  }

  function Arrow(u: Id, v: Id): Edge {
    Edge("", "", u, v, None)
  }

  /** The edges a -> b -> a and c -> b. */
  ghost predicate IsStrayExample(tasks: seq<TaskDefinition>, edges: seq<Edge>, a: Id, b: Id, c: Id) {
    && a != b && b != c && a != c
    && tasks == [Node(a), Node(b), Node(c)]
    && edges == [Arrow(a, b), Arrow(b, a), Arrow(c, b)]
  }

  /**
   The documented promise "the node IDs involved in cycles" fails here: the search from c meets
   the leftover gray b, so the list gets `undefined` and c, which is on no cycle.
   */
  lemma CyclesMayReportStrayNodes(tasks: seq<TaskDefinition>, edges: seq<Edge>, a: Id, b: Id, c: Id)
    requires IsStrayExample(tasks, edges, a, b, c)
    ensures Cycles(tasks, edges) == [Some(a), Some(b), None, Some(c)]
    ensures !OnCycle(GraphOf(tasks, edges), c)
  {
    NoEdgeNoCycle(GraphOf(tasks, edges), c);
    var adj := Adjacency(tasks, edges);
    StrayAdjacency(tasks, edges, a, b, c);
    var s0 := Start({a, b, c});
    var s3 := Enter(Enter(s0, a), b).(cycleNodes := [Some(a), Some(b)]);
    var s5 := Enter(s3.(path := []), c).(cycleNodes := [Some(a), Some(b), None, Some(c)]);
    StrayFirstSearch(adj, s0, s3, a, b, c);
    StraySecondSearch(adj, s3.(path := []), s5, a, b, c);
    StrayLoop(adj, s0, s3, s5, a, b, c);
  }

  lemma NoEdgeNoCycle(g: Graph, n: Id)
    requires forall a :: a in g.arcs ==> a.1 != n
    ensures !OnCycle(g, n)
  {
    forall c | IsCycle(g, c) ensures n !in c {
      forall k | 0 <= k < |c| ensures c[k] != n {
        if k > 0 {
          assert (c[k - 1], c[k]) in g.arcs;
        }
      }
    }
  }

  lemma AddThree(s: seq<Option<Id>>, x: Option<Id>, y: Option<Id>, z: Option<Id>)
    ensures AddAll(s, [x, y, z]) == Add(Add(Add(s, x), y), z)
  {
    assert [x, y, z][..2] == [x, y] && [x, y][..1] == [x] && [x][..0] == [];
    assert AddAll(s, [x]) == Add(s, x);
    assert AddAll(s, [x, y]) == Add(Add(s, x), y);
  }

  ghost predicate IsStrayAdjacency(adj: map<Id, seq<Id>>, a: Id, b: Id, c: Id) {
    && a != b && b != c && a != c
    && adj.Keys == {a, b, c} && adj[a] == [b] && adj[b] == [a] && adj[c] == [b]
  }

  lemma StrayAdjacency(tasks: seq<TaskDefinition>, edges: seq<Edge>, a: Id, b: Id, c: Id)
    requires IsStrayExample(tasks, edges, a, b, c)
    ensures IsStrayAdjacency(Adjacency(tasks, edges), a, b, c)
    ensures NodeSet(tasks) == {a, b, c} && Ids(tasks) == [a, b, c]
  {
    TargetsOfThree(edges, a);
    TargetsOfThree(edges, b);
    TargetsOfThree(edges, c);
  }

  lemma TargetsOfThree(edges: seq<Edge>, n: Id)
    requires |edges| == 3
    ensures Targets(edges, n) ==
            (if edges[0].source == n then [edges[0].target] else [])
            + ((if edges[1].source == n then [edges[1].target] else [])
            + (if edges[2].source == n then [edges[2].target] else []))
  {
    var rest := edges[1..];
    assert rest[1..][1..] == [];
    assert Targets(rest[1..], n) == if edges[2].source == n then [edges[2].target] else [];
    assert Targets(rest, n) == (if rest[0].source == n then [rest[0].target] else []) + Targets(rest[1..], n);
  }

  lemma StrayClosing(adj: map<Id, seq<Id>>, s2: Search, s3: Search, a: Id, b: Id)
    requires a != b && s2.path == [a, b] && s2.cycleNodes == []
    requires a in s2.color && s2.color[a] == Gray
    requires s3 == s2.(cycleNodes := [Some(a), Some(b)])
    ensures VisitAll(adj, s2, [a]) == (s3, true)
  {
    assert Loop(s2.path, a) == [Some(a), Some(b), Some(a)];
    AddThree([], Some(a), Some(b), Some(a));
    assert AddAll([], Loop(s2.path, a)) == Add(Add(Add([], Some(a)), Some(b)), Some(a));
    assert Add(Add([], Some(a)), Some(b)) == [Some(a), Some(b)];
  }

  /** When the only neighbor's search ends with a cycle, so does this one. */
  lemma EndsSearch(adj: map<Id, seq<Id>>, s: Search, u: Id, v: Id, s': Search)
    requires u in InColor(s.color, White) && u in adj && adj[u] == [v]
    requires VisitAll(adj, Enter(s, u), [v]) == (s', true)
    ensures Visit(adj, s, u) == (s', true)
  {
  }

  /** The first search goes a, b, back to a; it leaves a and b gray. */
  lemma StrayFirstSearch(adj: map<Id, seq<Id>>, s0: Search, s3: Search, a: Id, b: Id, c: Id)
    requires IsStrayAdjacency(adj, a, b, c) && s0 == Start({a, b, c})
    requires s3 == Enter(Enter(s0, a), b).(cycleNodes := [Some(a), Some(b)])
    ensures Visit(adj, s0, a) == (s3, true)
  {
    var s1 := Enter(s0, a);
    StrayClosing(adj, Enter(s1, b), s3, a, b);
    EndsSearch(adj, s1, b, a, s3);
    assert VisitAll(adj, s1, [b]) == (s3, true);
    EndsSearch(adj, s0, a, b, s3);
  }

  /** The second search goes c, then meets the gray b, which its own path does not hold. */
  lemma StraySecondSearch(adj: map<Id, seq<Id>>, s3: Search, s5: Search, a: Id, b: Id, c: Id)
    requires IsStrayAdjacency(adj, a, b, c)
    requires s3.color.Keys == {a, b, c} && s3.color[b] == Gray && s3.color[c] == White && s3.path == []
    requires s3.cycleNodes == [Some(a), Some(b)]
    requires s5 == Enter(s3, c).(cycleNodes := [Some(a), Some(b), None, Some(c)])
    ensures Visit(adj, s3, c) == (s5, true)
  {
    var s4 := Enter(s3, c);
    assert s4.path == [c] && b !in s4.path;
    assert Loop(s4.path, b) == [None, Some(c), Some(b)];
    AddThree(s4.cycleNodes, None, Some(c), Some(b));
    assert AddAll(s4.cycleNodes, Loop(s4.path, b)) == s5.cycleNodes;
    assert VisitAll(adj, s4, [b]) == (s5, true);
  }

  lemma StrayLoop(adj: map<Id, seq<Id>>, s0: Search, s3: Search, s5: Search, a: Id, b: Id, c: Id)
    requires s0 == Start({a, b, c}) && a != b && b != c && a != c
    requires s3.color.Keys == {a, b, c} && s3.color[b] == Gray && s3.color[c] == White
    requires Visit(adj, s0, a) == (s3, true) && Visit(adj, s3.(path := []), c) == (s5, true)
    ensures SearchAll(adj, s0, [a, b, c]) == s5
  {
    assert [a, b, c][1..] == [b, c] && [b, c][1..] == [c] && [c][1..] == [];
    assert SearchAll(adj, s3, [c]) == SearchAll(adj, s5, []) == s5;
    assert SearchAll(adj, s3, [b, c]) == SearchAll(adj, s3, [c]);
    assert s0.(path := []) == s0;
  }

  lemma SearchNext(adj: map<Id, seq<Id>>, s: Search, ids: seq<Id>, i: nat)
    requires i < |ids|
    ensures SearchAll(adj, s, ids[i..])
            == if ids[i] in InColor(s.color, White) then
                 SearchAll(adj, Visit(adj, s.(path := []), ids[i]).0, ids[i + 1..])
               else SearchAll(adj, s, ids[i + 1..])
  {
    assert ids[i..][0] == ids[i] && ids[i..][1..] == ids[i + 1..];
  }

  method DetectCycles(tasks: seq<TaskDefinition>, edges: seq<Edge>) returns (cycleNodes: seq<Option<Id>>)
    ensures cycleNodes == Cycles(tasks, edges)
  {
    var adjacency := BuildAdjacencyList(tasks, edges);
    var search := new DepthFirstSearch(tasks, adjacency);
    ghost var start := search.State();
    ghost var ids := Ids(tasks);
    for i := 0 to |tasks|
      invariant search.color.Keys == NodeSet(tasks)
      invariant SearchAll(adjacency, start, ids) == SearchAll(adjacency, search.State(), ids[i..])
    {
      SearchNext(adjacency, search.State(), ids, i);
      if search.color[tasks[i].id] == White {
        search.path := [];
        var found := search.Dfs(tasks[i].id);
      }
    }
    return search.cycleNodes;
  }

  // ----- Edge references -----

  predicate ValidReference(tasks: seq<TaskDefinition>, e: Edge) {
    e.source in NodeSet(tasks) && e.target in NodeSet(tasks)
  }

  function ValidEdges(tasks: seq<TaskDefinition>, edges: seq<Edge>): seq<Edge> {
    Filter(edges, e => ValidReference(tasks, e))
  }

  function InvalidEdges(tasks: seq<TaskDefinition>, edges: seq<Edge>): seq<(Id, Id)> {
    var bad := Filter(edges, e => !ValidReference(tasks, e));
    seq(|bad|, i requires 0 <= i < |bad| => (bad[i].source, bad[i].target))
  }

  method ValidateEdgeReferences(tasks: seq<TaskDefinition>, edges: seq<Edge>) returns (invalid: seq<(Id, Id)>)
    ensures invalid == InvalidEdges(tasks, edges)
    ensures invalid == [] <==> forall e :: e in edges ==> ValidReference(tasks, e)
  {
    var taskIds := NodeSet(tasks);
    ghost var bad := e => !ValidReference(tasks, e);
    invalid := [];
    for i := 0 to |edges|
      invariant |invalid| == |Filter(edges[..i], bad)|
      invariant forall k :: 0 <= k < |invalid| ==>
        invalid[k] == (Filter(edges[..i], bad)[k].source, Filter(edges[..i], bad)[k].target)
    {
      FilterSnoc(edges[..i], edges[i], bad);
      assert edges[..i + 1] == edges[..i] + [edges[i]];
      if edges[i].source !in taskIds || edges[i].target !in taskIds {
        invalid := invalid + [(edges[i].source, edges[i].target)];
      }
    }
    assert edges[..|edges|] == edges;
    NoneInvalid(tasks, edges);
  }

  lemma NoneInvalid(tasks: seq<TaskDefinition>, edges: seq<Edge>)
    ensures InvalidEdges(tasks, edges) == [] <==> forall e :: e in edges ==> ValidReference(tasks, e)
  {
    var bad := Filter(edges, e => !ValidReference(tasks, e));
    FilterHolds(edges, e => !ValidReference(tasks, e));
    if bad != [] {
      assert bad[0] in bad;
    }
  }

  /** A pair is listed exactly when it is the source and the target of an edge of which one is no task id, once for every such edge. */
  lemma InvalidEdgesTold(tasks: seq<TaskDefinition>, edges: seq<Edge>)
    ensures forall u, v :: (u, v) in InvalidEdges(tasks, edges) <==>
              exists e :: e in edges && e.source == u && e.target == v && (u !in Ids(tasks) || v !in Ids(tasks))
    ensures |InvalidEdges(tasks, edges)| + |ValidEdges(tasks, edges)| == |edges|
  {
    var bad := Filter(edges, e => !ValidReference(tasks, e));
    FilterHolds(edges, e => !ValidReference(tasks, e));
    IdsAreNodes(tasks);
    forall u, v
      ensures (u, v) in InvalidEdges(tasks, edges) <==>
                exists e :: e in edges && e.source == u && e.target == v && (u !in Ids(tasks) || v !in Ids(tasks))
    {
      if (u, v) in InvalidEdges(tasks, edges) {
        var i :| 0 <= i < |bad| && (bad[i].source, bad[i].target) == (u, v);
        assert bad[i] in bad;
      }
      if e :| e in edges && e.source == u && e.target == v && (u !in Ids(tasks) || v !in Ids(tasks)) {
        assert e in bad;
        var i :| 0 <= i < |bad| && bad[i] == e;
        assert InvalidEdges(tasks, edges)[i] == (u, v);
      }
    }
    FilterSplits(edges, e => ValidReference(tasks, e), e => !ValidReference(tasks, e));
  }

  lemma {:induction false} FilterSplits<T>(s: seq<T>, keep: T -> bool, drop: T -> bool)
    requires forall x :: x in s ==> drop(x) == !keep(x)
    ensures |Filter(s, keep)| + |Filter(s, drop)| == |s|
  {
    if s != [] {
      assert s[0] in s && forall x :: x in s[1..] ==> x in s;
      FilterSplits(s[1..], keep, drop);
    }
  }

  // ----- Reachability -----

  ghost function Unreached(tasks: seq<TaskDefinition>, edges: seq<Edge>): seq<Id> {
    Filter(Ids(tasks), n => !Reachable(tasks, edges, n))
  }

  /** All ids that occur as tasks or at the ends of edges: a bound on what the search can visit. */
  ghost function AllIds(tasks: seq<TaskDefinition>, edges: seq<Edge>): set<Id> {
    NodeSet(tasks) + (set e | e in edges :: e.source) + (set e | e in edges :: e.target)
  }

  /** Breadth-first search from the roots; an id may wait in the queue more than once. */
  method CheckReachability(tasks: seq<TaskDefinition>, edges: seq<Edge>) returns (unreached: seq<Id>)
    ensures unreached == Unreached(tasks, edges)
  {
    var incomingCount := CountIncoming(tasks, edges);
    var queue: seq<Id> := Filter(Ids(tasks), n => n in incomingCount && incomingCount[n] == 0);
    var visited: set<Id> := {};
    IdsAreNodes(tasks);
    FilterHolds(Ids(tasks), n => n in incomingCount && incomingCount[n] == 0);
    forall n ensures n in queue <==> IsRoot(tasks, edges, n) { }
    forall n | n in queue ensures Reachable(tasks, edges, n) { RootReachable(tasks, edges, n); }
    while |queue| > 0
      invariant forall n :: n in queue || n in visited ==> n in AllIds(tasks, edges) && Reachable(tasks, edges, n)
      invariant forall n :: IsRoot(tasks, edges, n) ==> n in queue || n in visited
      invariant forall e :: e in edges && e.source in visited ==> e.target in queue || e.target in visited
      decreases AllIds(tasks, edges) - visited, |queue|
    {
      var current := queue[0];
      ghost var before := queue;
      queue := queue[1..];
      assert forall n :: n in before <==> n == current || n in queue;
      if current !in visited {
        visited := visited + {current};
        var neighbors := Targets(edges, current);
        forall v ensures v in neighbors <==> (current, v) in Arcs(edges) { TargetsAreArcs(edges, current, v); }
        forall v | v in neighbors ensures Reachable(tasks, edges, v) { ReachableStep(tasks, edges, current, v); }
        forall e | e in edges && e.source == current ensures e.target in neighbors {
          assert (current, e.target) in Arcs(edges);
        }
        var unseen := Filter(neighbors, v => v !in visited);
        FilterHolds(neighbors, v => v !in visited);
        assert forall n :: n in queue + unseen <==> n in queue || n in unseen;
        queue := queue + unseen;
      }
    }
    VisitedIsReachable(tasks, edges, visited);
    unreached := Filter(Ids(tasks), n => n !in visited);
    FilterAgrees(Ids(tasks), n => n !in visited, n => !Reachable(tasks, edges, n));
  }

  lemma VisitedIsReachable(tasks: seq<TaskDefinition>, edges: seq<Edge>, visited: set<Id>)
    requires forall n :: n in visited ==> Reachable(tasks, edges, n)
    requires forall n :: IsRoot(tasks, edges, n) ==> n in visited
    requires forall e :: e in edges && e.source in visited ==> e.target in visited
    ensures forall n :: n in visited <==> Reachable(tasks, edges, n)
  {
    forall n | Reachable(tasks, edges, n) ensures n in visited {
      var p :| IsWalk(Arcs(edges), p) && IsRoot(tasks, edges, p[0]) && p[|p| - 1] == n;
      ClosedHoldsWalk(tasks, edges, visited, p);
    }
  }

  method CountIncoming(tasks: seq<TaskDefinition>, edges: seq<Edge>) returns (incomingCount: map<Id, nat>)
    ensures incomingCount.Keys == NodeSet(tasks)
    ensures forall n :: n in incomingCount ==> (incomingCount[n] == 0 <==> IsRoot(tasks, edges, n))
  {
    incomingCount := map n | n in NodeSet(tasks) :: 0;
    for i := 0 to |edges|
      invariant incomingCount.Keys == NodeSet(tasks)
      invariant forall n :: n in incomingCount ==> (incomingCount[n] == 0 <==> IsRoot(tasks, edges[..i], n))
    {
      assert edges[..i + 1] == edges[..i] + [edges[i]];
      if edges[i].target in incomingCount {
        incomingCount := incomingCount[edges[i].target := incomingCount[edges[i].target] + 1];
      }
    }
    assert edges[..|edges|] == edges;
  }

  // ----- The combined validation -----

  /** The messages are left out; `kind` is the source's `type`. */
  datatype ValidationError =
    | InvalidEdgeReference(edges: seq<(Id, Id)>)
    | CycleDetected(nodes: seq<Option<Id>>)
    | UnreachableNodes(unreached: seq<Id>)

  ghost function Validation(tasks: seq<TaskDefinition>, edges: seq<Edge>): seq<ValidationError> {
    var invalid, valid := InvalidEdges(tasks, edges), ValidEdges(tasks, edges);
    var cycles, unreached := Cycles(tasks, valid), Unreached(tasks, valid);
    (if invalid != [] then [InvalidEdgeReference(invalid)] else [])
    + (if cycles != [] then [CycleDetected(cycles)]
       else if unreached != [] then [UnreachableNodes(unreached)] else [])
  }

  lemma ValidEdgesKeepGraph(tasks: seq<TaskDefinition>, edges: seq<Edge>)
    ensures GraphOf(tasks, ValidEdges(tasks, edges)) == GraphOf(tasks, edges)
  {
    var g, g' := GraphOf(tasks, edges), GraphOf(tasks, ValidEdges(tasks, edges));
    FilterHolds(edges, e => ValidReference(tasks, e));
    forall a | a in g.arcs ensures a in g'.arcs {
      var e :| e in edges && (e.source, e.target) == a;
      assert e in ValidEdges(tasks, edges);
    }
  }

  /** On an acyclic graph the reachability check has nothing to report. */
  lemma AcyclicIsReachable(tasks: seq<TaskDefinition>, edges: seq<Edge>)
    requires forall e :: e in edges ==> ValidReference(tasks, e)
    requires Acyclic(GraphOf(tasks, edges))
    ensures Unreached(tasks, edges) == []
  {
    TopologicalSorter.ValidExactlyWhenAcyclic(tasks, edges);
    TopologicalSorter.SortIsCorrect(tasks, edges);
    var order := TopologicalSorter.Sort(tasks, edges).order;
    IdsAreNodes(tasks);
    FilterHolds(Ids(tasks), n => !Reachable(tasks, edges, n));
    if Unreached(tasks, edges) != [] {
      var n := Unreached(tasks, edges)[0];
      assert n in Unreached(tasks, edges) && n in order;
      OrderedIsReachable(tasks, edges, order, IndexOf(order, n));
    }
  }

  /** Valid exactly when every edge names tasks and there is no cycle; `unreachable_nodes` never fires. */
  lemma ValidationIsExact(tasks: seq<TaskDefinition>, edges: seq<Edge>)
    ensures Validation(tasks, edges) == [] <==>
              (forall e :: e in edges ==> ValidReference(tasks, e)) && Acyclic(GraphOf(tasks, edges))
    ensures forall e :: e in Validation(tasks, edges) ==> !e.UnreachableNodes?
  {
    var valid := ValidEdges(tasks, edges);
    NoneInvalid(tasks, edges);
    ValidEdgesKeepGraph(tasks, edges);
    CyclesAreDetected(tasks, valid);
    NothingUnreached(tasks, edges);
  }

  /** Which errors there are and in which order, told from the ids and the ends of edges. */
  lemma ErrorsTold(tasks: seq<TaskDefinition>, edges: seq<Edge>)
    ensures var errors := Validation(tasks, edges);
            && |errors| <= 2 && (|errors| == 2 ==> errors[0].InvalidEdgeReference? && errors[1].CycleDetected?)
            && ((exists e :: e in edges && (e.source !in Ids(tasks) || e.target !in Ids(tasks))) <==>
                  errors != [] && errors[0].InvalidEdgeReference? && errors[0].edges == InvalidEdges(tasks, edges))
            && ((exists c :: IsCycle(GraphOf(tasks, edges), c)) <==>
                  errors != [] && errors[|errors| - 1].CycleDetected?
                  && errors[|errors| - 1].nodes == Cycles(tasks, ValidEdges(tasks, edges)))
  {
    ValidationIsExact(tasks, edges);
    NoneInvalid(tasks, edges);
    IdsAreNodes(tasks);
    ValidEdgesKeepGraph(tasks, edges);
    CyclesAreDetected(tasks, ValidEdges(tasks, edges));
    NothingUnreached(tasks, edges);
  }

  lemma NothingUnreached(tasks: seq<TaskDefinition>, edges: seq<Edge>)
    ensures Cycles(tasks, ValidEdges(tasks, edges)) == [] ==> Unreached(tasks, ValidEdges(tasks, edges)) == []
  {
    var valid := ValidEdges(tasks, edges);
    CyclesAreDetected(tasks, valid);
    FilterHolds(edges, e => ValidReference(tasks, e));
    if Cycles(tasks, valid) == [] {
      AcyclicIsReachable(tasks, valid);
    }
  }

  lemma AlgorithmsAgree(tasks: seq<TaskDefinition>, edges: seq<Edge>)
    requires forall e :: e in edges ==> ValidReference(tasks, e)
    ensures Validation(tasks, edges) == [] <==> TopologicalSorter.Sort(tasks, edges).valid
    ensures Validation(tasks, edges) == [] <==> Cycles(tasks, edges) == []
  {
    ValidationIsExact(tasks, edges);
    TopologicalSorter.ValidExactlyWhenAcyclic(tasks, edges);
    CyclesAreDetected(tasks, edges);
  }

  method ValidateDAG(tasks: seq<TaskDefinition>, edges: seq<Edge>)
    returns (valid: bool, errors: seq<ValidationError>)
    ensures errors == Validation(tasks, edges) && valid == (errors == [])
    ensures valid <==> (forall e :: e in edges ==> ValidReference(tasks, e)) && Acyclic(GraphOf(tasks, edges))
  {
    errors := [];
    var invalidEdges := ValidateEdgeReferences(tasks, edges);
    if |invalidEdges| > 0 {
      errors := errors + [InvalidEdgeReference(invalidEdges)];
    }
    var validEdges := ValidEdges(tasks, edges);
    var cycleNodes := DetectCycles(tasks, validEdges);
    if |cycleNodes| > 0 {
      errors := errors + [CycleDetected(cycleNodes)];
    }
    if |cycleNodes| == 0 {
      var unreachable := CheckReachability(tasks, validEdges);
      if |unreachable| > 0 {
        errors := errors + [UnreachableNodes(unreachable)];
      }
    }
    valid := |errors| == 0;
    assert errors == Validation(tasks, edges);
    ValidationIsExact(tasks, edges);
  }
}
