/** Reverse post-order sorting and cycle reporting (packages/shared/src/dag/topological-sorter.ts). */
module TopologicalSorter {
  import opened Types
  import opened Sequences
  import opened Graphs
  import opened DepthFirstSearches

  datatype SortResult = SortResult(valid: bool, order: seq<Id>, cycleNodes: Option<seq<Option<Id>>>)

  /** The loop over the tasks: search from each white one, and stop at the first cycle. */
  function SearchUntilCycle(adj: map<Id, seq<Id>>, s: Search, ids: seq<Id>): (Search, bool)
    decreases |ids|
  {
    if ids == [] then (s, false)
    else if ids[0] in InColor(s.color, White) then
      var (after, found) := Visit(adj, s.(path := []), ids[0]);
      if found then (after, true) else SearchUntilCycle(adj, after, ids[1..])
    else SearchUntilCycle(adj, s, ids[1..])
  }

  function Sort(tasks: seq<TaskDefinition>, edges: seq<Edge>): SortResult {
    var (s, found) := SearchUntilCycle(Adjacency(tasks, edges), Start(NodeSet(tasks)), Ids(tasks));
    if found then SortResult(false, [], Some(s.cycleNodes))
    else SortResult(true, Reverse(s.postOrder), None)
  }

  ghost predicate BetweenRoots(g: Graph, s: Search) {
    OnTrack(g, s) && s.path == [] && s.cycleNodes == []
  }

  lemma StartOnTrack(g: Graph)
    ensures BetweenRoots(g, Start(g.nodes))
  {
  }

  lemma {:induction false} SearchFinishes(g: Graph, adj: map<Id, seq<Id>>, s: Search, ids: seq<Id>)
    requires Represents(adj, g) && BetweenRoots(g, s)
    requires forall n :: n in ids ==> n in g.nodes
    ensures var (s', found) := SearchUntilCycle(adj, s, ids);
            if found then FoundCycle(g, s') else
              BetweenRoots(g, s') && s.postOrder <= s'.postOrder && forall n :: n in ids ==> n in s'.postOrder
    decreases |ids|
  {
    if ids != [] {
      var n := ids[0];
      assert n in ids;
      if n in InColor(s.color, White) {
        assert s.(path := []) == s;
        VisitOnTrack(g, adj, s, n);
        var (after, found) := Visit(adj, s, n);
        if !found {
          SearchFinishes(g, adj, after, ids[1..]);
        }
      } else {
        assert n !in s.path && s.color[n] == Black;
        SearchFinishes(g, adj, s, ids[1..]);
      }
    }
  }

  lemma FinishedReversed(g: Graph, order: seq<Id>)
    requires Finished(g, order) && forall n :: n in order <==> n in g.nodes
    ensures IsTopologicalOrder(g, Reverse(order))
  {
    var r := Reverse(order);
    forall n ensures n in r <==> n in order {
      if n in order {
        assert r[|order| - 1 - IndexOf(order, n)] == n;
      }
    }
    forall i, j | 0 <= i < |r| && 0 <= j < |r| && (r[i], r[j]) in g.arcs ensures i < j {
      var k := |order| - 1 - i;
      assert (order[k], r[j]) in g.arcs;
      var m :| 0 <= m < k && order[..k][m] == r[j];
      assert order[m] == order[|order| - 1 - j];
    }
  }

  /** A valid result is a topological order of all task ids; an invalid one reports one genuine simple cycle. */
  lemma SortIsCorrect(tasks: seq<TaskDefinition>, edges: seq<Edge>)
    ensures var g, r := GraphOf(tasks, edges), Sort(tasks, edges);
            if r.valid then IsTopologicalOrder(g, r.order) && r.cycleNodes == None
            else r.order == [] && exists c :: IsSimpleCycle(g, c) && r.cycleNodes == Some(Known(c))
  {
    var g, adj := GraphOf(tasks, edges), Adjacency(tasks, edges);
    AdjacencyRepresents(tasks, edges);
    StartOnTrack(g);
    var ids := Ids(tasks);
    IdsAreNodes(tasks);
    SearchFinishes(g, adj, Start(g.nodes), ids);
    var (s, found) := SearchUntilCycle(adj, Start(g.nodes), ids);
    if !found {
      FinishedReversed(g, s.postOrder);
    }
  }

  /** The order, told from the ids and the ends of edges. */
  lemma OrderTold(tasks: seq<TaskDefinition>, edges: seq<Edge>, e: Edge)
    requires Sort(tasks, edges).valid && e in edges && e.source in Ids(tasks) && e.target in Ids(tasks)
    ensures var order := Sort(tasks, edges).order; exists i, j :: 0 <= i < j < |order| && order[i] == e.source && order[j] == e.target
    ensures NoDuplicates(Sort(tasks, edges).order) && forall n :: n in Sort(tasks, edges).order <==> n in Ids(tasks)
  {
    var g, order := GraphOf(tasks, edges), Sort(tasks, edges).order;
    SortIsCorrect(tasks, edges);
    IdsAreNodes(tasks);
    assert (e.source, e.target) in g.arcs;
    ArcClimbs(g, order, e.source, e.target);
    assert order[IndexOf(order, e.source)] == e.source && order[IndexOf(order, e.target)] == e.target;
  }

  lemma KnownAt(ids: seq<Id>, k: nat)
    requires k < |ids|
    ensures Known(ids)[k] == Some(ids[k])
  {
  }

  /** The reported cycle: some edge leads from each node to the next, and from the last to the first. */
  lemma CycleTold(tasks: seq<TaskDefinition>, edges: seq<Edge>, k: nat)
    requires !Sort(tasks, edges).valid
    ensures Sort(tasks, edges).cycleNodes.Some? && Sort(tasks, edges).cycleNodes.value != []
    ensures var nodes := Sort(tasks, edges).cycleNodes.value;
            k < |nodes| ==>
              exists e :: e in edges && Some(e.source) == nodes[k] && Some(e.target) == nodes[if k + 1 < |nodes| then k + 1 else 0]
  {
    var g := GraphOf(tasks, edges);
    SortIsCorrect(tasks, edges);
    var c :| IsSimpleCycle(g, c) && Sort(tasks, edges).cycleNodes == Some(Known(c));
    if k < |c| {
      var next := if k + 1 < |c| then k + 1 else 0;
      KnownAt(c, k);
      KnownAt(c, next);
      assert (c[k], c[next]) in g.arcs;
      var e :| e in edges && (e.source, e.target) == (c[k], c[next]);
    }
  }

  lemma ValidExactlyWhenAcyclic(tasks: seq<TaskDefinition>, edges: seq<Edge>)
    ensures Sort(tasks, edges).valid <==> Acyclic(GraphOf(tasks, edges))
  {
    SortIsCorrect(tasks, edges);
    if Sort(tasks, edges).valid {
      TopologicalOrderMeansAcyclic(GraphOf(tasks, edges), Sort(tasks, edges).order);
    }
  }

  method TopologicalSort(tasks: seq<TaskDefinition>, edges: seq<Edge>) returns (r: SortResult)
    ensures r == Sort(tasks, edges)
    ensures r.valid <==> Acyclic(GraphOf(tasks, edges))
    ensures r.valid ==> IsTopologicalOrder(GraphOf(tasks, edges), r.order)
    ensures !r.valid ==> exists c :: IsSimpleCycle(GraphOf(tasks, edges), c) && r.cycleNodes == Some(Known(c))
  {
    r := SearchRoots(tasks, edges);
    SortIsCorrect(tasks, edges);
    ValidExactlyWhenAcyclic(tasks, edges);
  }

  method SearchRoots(tasks: seq<TaskDefinition>, edges: seq<Edge>) returns (r: SortResult)
    ensures r == Sort(tasks, edges)
  {
    var adjacency := BuildAdjacencyList(tasks, edges);
    var search := new DepthFirstSearch(tasks, adjacency);
    ghost var start := search.State();
    ghost var ids := Ids(tasks);
    for i := 0 to |tasks|
      invariant search.color.Keys == NodeSet(tasks)
      invariant SearchUntilCycle(adjacency, start, ids) == SearchUntilCycle(adjacency, search.State(), ids[i..])
    {
      assert ids[i..][1..] == ids[i + 1..];
      if search.color[tasks[i].id] == White {
        search.path := [];
        var found := search.Dfs(tasks[i].id);
        if found {
          return SortResult(false, [], Some(search.cycleNodes));
        }
      }
    }
    return SortResult(true, Reverse(search.postOrder), None);
  }
}
