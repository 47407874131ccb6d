/**
 The white/gray/black depth-first search with an explicit path stack that both
 dag-validator.ts and topological-sorter.ts contain. The two copies differ only in that the
 sorter also records the post-order, so one search serves both.

 `Visit` and `VisitAll` say what one call does to the search state; the lemmas are about them,
 and class `DepthFirstSearch` is the search as written, over mutable fields.
 */
module DepthFirstSearches {
  import opened Types
  import opened Sequences
  import opened Graphs

  datatype Color = White | Gray | Black

  /** `cycleNodes` is a JavaScript set, kept in insertion order; None is the value `undefined`. */
  datatype Search = Search(
    color: map<Id, Color>, path: seq<Id>, postOrder: seq<Id>, cycleNodes: seq<Option<Id>>)

  function InColor(color: map<Id, Color>, c: Color): set<Id> {
    set n | n in color && color[n] == c
  }

  // ----- Building the adjacency list -----

  function Adjacency(tasks: seq<TaskDefinition>, edges: seq<Edge>): map<Id, seq<Id>> {
    map n | n in NodeSet(tasks) :: Targets(edges, n)
  }

  /** What the search needs of an adjacency list: the arcs, plus possibly unknown targets. */
  ghost predicate Represents(adj: map<Id, seq<Id>>, g: Graph) {
    && g.Valid()
    && adj.Keys == g.nodes
    && forall u, v :: u in g.nodes && v in g.nodes ==> (v in adj[u] <==> (u, v) in g.arcs)
  }

  lemma AdjacencyRepresents(tasks: seq<TaskDefinition>, edges: seq<Edge>)
    ensures Represents(Adjacency(tasks, edges), GraphOf(tasks, edges))
  {
    forall u, v ensures v in Targets(edges, u) <==> (u, v) in Arcs(edges) {
      TargetsAreArcs(edges, u, v);
    }
  }

  method BuildAdjacencyList(tasks: seq<TaskDefinition>, edges: seq<Edge>) returns (adjacency: map<Id, seq<Id>>)
    ensures adjacency == Adjacency(tasks, edges)
  {
    adjacency := map[];
    for i := 0 to |tasks|
      invariant adjacency.Keys == NodeSet(tasks[..i])
      invariant forall n :: n in adjacency ==> adjacency[n] == []
    {
      assert tasks[..i + 1] == tasks[..i] + [tasks[i]];
      adjacency := adjacency[tasks[i].id := []];
    }
    assert tasks[..|tasks|] == tasks;
    for i := 0 to |edges|
      invariant adjacency.Keys == NodeSet(tasks)
      invariant forall n :: n in adjacency ==> adjacency[n] == Targets(edges[..i], n)
    {
      var edge := edges[i];
      assert edges[..i + 1] == edges[..i] + [edge];
      forall n
        ensures Targets(edges[..i + 1], n) == Targets(edges[..i], n) + (if edge.source == n then [edge.target] else [])
      {
        TargetsAppend(edges[..i], [edge], n);
        assert [edge][1..] == [];
      }
      if edge.source in adjacency {
        adjacency := adjacency[edge.source := adjacency[edge.source] + [edge.target]];
      }
    }
    assert edges[..|edges|] == edges;
  }

  // ----- What one call of the search does -----

  function Pop(path: seq<Id>): seq<Id> {
    if path == [] then path else path[..|path| - 1]
  }

  /** Inserting into a JavaScript set. */
  function Add(s: seq<Option<Id>>, x: Option<Id>): seq<Option<Id>> {
    if x in s then s else s + [x]
  }

  function AddAll(s: seq<Option<Id>>, xs: seq<Option<Id>>): (r: seq<Option<Id>>)
    ensures s <= r
    ensures forall x :: x in r <==> x in s || x in xs
    decreases |xs|
  {
    if xs == [] then s else Add(AddAll(s, xs[..|xs| - 1]), xs[|xs| - 1])
  }

  function Known(ids: seq<Id>): seq<Option<Id>> {
    seq(|ids|, i requires 0 <= i < |ids| => Some(ids[i]))
  }

  /**
   What is recorded when the search meets the gray node `n`: the path from `path.indexOf(n)`
   on. When `n` is not on the path that index is -1, and reading `path[-1]` gives `undefined`.
   */
  function Loop(path: seq<Id>, n: Id): seq<Option<Id>> {
    (if n in path then Known(path[IndexOf(path, n)..]) else [None] + Known(path)) + [Some(n)]
  }

  function Enter(s: Search, n: Id): Search {
    s.(color := s.color[n := Gray], path := s.path + [n])
  }

  function Leave(s: Search, n: Id): Search {
    s.(color := s.color[n := Black], path := Pop(s.path), postOrder := s.postOrder + [n])
  }

  /** One call of `dfs(n, path)` on a white node. The second result says whether it found a cycle. */
  function Visit(adj: map<Id, seq<Id>>, s: Search, n: Id): (r: (Search, bool))
    requires n in InColor(s.color, White)
    ensures r.0.color.Keys == s.color.Keys && InColor(r.0.color, White) < InColor(s.color, White)
    ensures s.cycleNodes <= r.0.cycleNodes
    decreases InColor(s.color, White), 0
  {
    var entered := Enter(s, n);
    assert InColor(entered.color, White) == InColor(s.color, White) - {n};
    var (after, found) := VisitAll(adj, entered, if n in adj then adj[n] else []);
    if found then (after, true) else (Leave(after, n), false)
  }

  /** The loop of `dfs` over the neighbors still to be looked at. */
  function VisitAll(adj: map<Id, seq<Id>>, s: Search, neighbors: seq<Id>): (r: (Search, bool))
    ensures r.0.color.Keys == s.color.Keys && InColor(r.0.color, White) <= InColor(s.color, White)
    ensures s.cycleNodes <= r.0.cycleNodes
    decreases InColor(s.color, White), |neighbors| + 1
  {
    if neighbors == [] then (s, false) else
      var n := neighbors[0];
      if n in s.color && s.color[n] == Gray then
        (s.(cycleNodes := AddAll(s.cycleNodes, Loop(s.path, n))), true)
      else if n in s.color && s.color[n] == White then
        var (after, found) := Visit(adj, s, n);
        if found then (after, true) else VisitAll(adj, after, neighbors[1..])
      else
        VisitAll(adj, s, neighbors[1..])
  }

  function Start(nodes: set<Id>): Search {
    Search(map n | n in nodes :: White, [], [], [])
  }

  // ----- While no cycle has been found -----

  /** Gray is exactly the current path, a walk without repetition; black is exactly what is finished. */
  ghost predicate OnTrack(g: Graph, s: Search) {
    && s.color.Keys == g.nodes
    && NoDuplicates(s.path)
    && (forall n :: n in s.path <==> n in s.color && s.color[n] == Gray)
    && (s.path != [] ==> IsWalk(g.arcs, s.path))
    && Finished(g, s.postOrder)
    && (forall n :: n in s.postOrder <==> n in s.color && s.color[n] == Black)
  }

  /** No node twice, and every edge leads to a node that was finished earlier. */
  ghost predicate Finished(g: Graph, order: seq<Id>) {
    && NoDuplicates(order)
    && (forall i, v {:trigger (order[i], v) in g.arcs} ::
          0 <= i < |order| && (order[i], v) in g.arcs ==> v in order[..i])
  }

  ghost predicate CanEnter(g: Graph, s: Search, n: Id) {
    s.path == [] || (s.path[|s.path| - 1], n) in g.arcs
  }

  /** A gray neighbor closes a simple cycle: the path from that node on. */
  lemma GrayClosesCycle(g: Graph, s: Search, n: Id)
    requires s.path != [] && IsWalk(g.arcs, s.path) && NoDuplicates(s.path) && n in s.path
    requires (s.path[|s.path| - 1], n) in g.arcs
    ensures IsSimpleCycle(g, s.path[IndexOf(s.path, n)..])
    ensures Loop(s.path, n) == Known(s.path[IndexOf(s.path, n)..]) + [Some(n)]
  {
    var k := IndexOf(s.path, n);
    var c := s.path[k..];
    assert c[0] == n && c[|c| - 1] == s.path[|s.path| - 1];
    forall i | 0 <= i < |c| - 1 ensures (c[i], c[i + 1]) in g.arcs {
      assert c[i] == s.path[k + i] && c[i + 1] == s.path[k + i + 1];
    }
  }

  lemma {:induction false} AddAllFresh(s: seq<Option<Id>>, c: seq<Id>)
    requires NoDuplicates(c)
    requires forall x :: x in c ==> Some(x) !in s
    ensures AddAll(s, Known(c)) == s + Known(c)
    decreases |c|
  {
    if c != [] {
      var front, last := c[..|c| - 1], c[|c| - 1];
      assert Known(c)[..|c| - 1] == Known(front) && Known(c)[|c| - 1] == Some(last);
      forall x | x in front ensures Some(x) !in s { assert x in c; }
      AddAllFresh(s, front);
      assert last in c && Some(last) !in Known(front);
    }
  }

  ghost predicate StillOnTrack(g: Graph, s: Search, s': Search) {
    OnTrack(g, s') && s'.path == s.path && s'.cycleNodes == s.cycleNodes && s.postOrder <= s'.postOrder
  }

  ghost predicate FoundCycle(g: Graph, s': Search) {
    exists c :: IsSimpleCycle(g, c) && s'.cycleNodes == Known(c)
  }

  lemma EnterOnTrack(g: Graph, s: Search, n: Id)
    requires OnTrack(g, s) && n in InColor(s.color, White) && CanEnter(g, s, n)
    ensures OnTrack(g, Enter(s, n))
  {
    var s' := Enter(s, n);
    forall x ensures x in s'.path <==> x in s.path || x == n { }
  }

  /** A search on track stays on track and finishes `n`, or records exactly one simple cycle. */
  lemma {:induction false} VisitOnTrack(g: Graph, adj: map<Id, seq<Id>>, s: Search, n: Id)
    requires Represents(adj, g) && OnTrack(g, s) && s.cycleNodes == []
    requires n in InColor(s.color, White) && CanEnter(g, s, n)
    ensures var (s', found) := Visit(adj, s, n);
            if found then FoundCycle(g, s') else StillOnTrack(g, s, s') && n in s'.postOrder
    decreases InColor(s.color, White), 0
  {
    var entered := Enter(s, n);
    assert InColor(entered.color, White) == InColor(s.color, White) - {n};
    EnterOnTrack(g, s, n);
    VisitAllOnTrack(g, adj, entered, n, adj[n]);
    var (after, found) := VisitAll(adj, entered, adj[n]);
    if !found {
      LeaveOnTrack(g, after, n);
      assert Pop(after.path) == s.path;
    }
  }

  lemma LeaveOnTrack(g: Graph, s: Search, n: Id)
    requires OnTrack(g, s) && s.path != [] && s.path[|s.path| - 1] == n
    requires forall v :: (n, v) in g.arcs ==> v in s.postOrder
    ensures OnTrack(g, Leave(s, n))
  {
    var s' := Leave(s, n);
    assert n in s.path && n !in s.postOrder;
    forall x ensures x in s'.path <==> x in s.path && x != n {
      assert s.path == s'.path + [n];
    }
    forall i, v | 0 <= i < |s'.postOrder| && (s'.postOrder[i], v) in g.arcs
      ensures v in s'.postOrder[..i]
    {
      assert s'.postOrder[..i] == s.postOrder[..i];
    }
    forall x ensures x in s'.postOrder <==> x in s.postOrder || x == n { }
    if s'.path != [] {
      forall i | 0 <= i < |s'.path| - 1 ensures (s'.path[i], s'.path[i + 1]) in g.arcs {
        assert s'.path[i] == s.path[i];
      }
    }
  }

  lemma RecordsCycle(g: Graph, s: Search, n: Id)
    requires OnTrack(g, s) && s.cycleNodes == [] && s.path != []
    requires n in s.color && s.color[n] == Gray && CanEnter(g, s, n)
    ensures FoundCycle(g, s.(cycleNodes := AddAll(s.cycleNodes, Loop(s.path, n))))
  {
    GrayClosesCycle(g, s, n);
    var c := s.path[IndexOf(s.path, n)..];
    AddAllFresh([], c);
    assert (Known(c) + [Some(n)])[..|c|] == Known(c);
    assert Known(c)[0] == Some(n);
  }

  lemma {:induction false} VisitAllOnTrack(g: Graph, adj: map<Id, seq<Id>>, s: Search, u: Id, neighbors: seq<Id>)
    requires Represents(adj, g) && OnTrack(g, s) && s.cycleNodes == []
    requires s.path != [] && s.path[|s.path| - 1] == u
    requires forall v :: v in neighbors && v in g.nodes ==> (u, v) in g.arcs
    ensures var (s', found) := VisitAll(adj, s, neighbors);
            if found then FoundCycle(g, s') else
              StillOnTrack(g, s, s') && forall v :: v in neighbors && v in g.nodes ==> v in s'.postOrder
    decreases InColor(s.color, White), |neighbors| + 1
  {
    if neighbors != [] {
      var n := neighbors[0];
      assert n in neighbors;
      if n in s.color && s.color[n] == Gray {
        RecordsCycle(g, s, n);
      } else if n in s.color && s.color[n] == White {
        VisitOnTrack(g, adj, s, n);
        var (after, found) := Visit(adj, s, n);
        if !found {
          VisitAllOnTrack(g, adj, after, u, neighbors[1..]);
          var (s', foundLater) := VisitAll(adj, after, neighbors[1..]);
          assert !foundLater ==> n in s'.postOrder;
        }
      } else {
        VisitAllOnTrack(g, adj, s, u, neighbors[1..]);
        assert n in g.nodes ==> n in s.postOrder;
      }
    }
  }

  // ----- The search as written -----

  class DepthFirstSearch {
    const adjacency: map<Id, seq<Id>>
    var color: map<Id, Color>
    var path: seq<Id>
    var postOrder: seq<Id>
    var cycleNodes: seq<Option<Id>>

    ghost function State(): Search
      reads this
    {
      Search(color, path, postOrder, cycleNodes)
    }

    constructor (tasks: seq<TaskDefinition>, adjacency: map<Id, seq<Id>>)
      ensures this.adjacency == adjacency && State() == Start(NodeSet(tasks))
    {
      this.adjacency := adjacency;
      color, path, postOrder, cycleNodes := map[], [], [], [];
      new;
      for i := 0 to |tasks|
        invariant color.Keys == NodeSet(tasks[..i]) && forall n :: n in color ==> color[n] == White
        invariant path == [] && postOrder == [] && cycleNodes == []
      {
        assert tasks[..i + 1] == tasks[..i] + [tasks[i]];
        color := color[tasks[i].id := White];
      }
      assert tasks[..|tasks|] == tasks;
      assert color == Start(NodeSet(tasks)).color;
    }

    /** The inner closure `dfs`. */
    method Dfs(nodeId: Id) returns (found: bool)
      requires nodeId in InColor(color, White)
      modifies this
      ensures (State(), found) == Visit(adjacency, old(State()), nodeId)
      decreases InColor(color, White)
    {
      color := color[nodeId := Gray];
      path := path + [nodeId];
      ghost var entered := State();
      assert InColor(color, White) == InColor(old(color), White) - {nodeId};
      var neighbors := if nodeId in adjacency then adjacency[nodeId] else [];
      var i := 0;
      while i < |neighbors|
        invariant 0 <= i <= |neighbors|
        invariant InColor(color, White) <= InColor(entered.color, White)
        invariant VisitAll(adjacency, entered, neighbors) == VisitAll(adjacency, State(), neighbors[i..])
      {
        var neighbor := neighbors[i];
        assert neighbors[i..][1..] == neighbors[i + 1..];
        if neighbor in color && color[neighbor] == Gray {
          RecordCycle(neighbor);
          return true;
        }
        if neighbor in color && color[neighbor] == White {
          var foundBelow := Dfs(neighbor);
          if foundBelow {
            return true;
          }
        }
        i := i + 1;
      }
      color := color[nodeId := Black];
      postOrder := postOrder + [nodeId];
      path := Pop(path);
      return false;
    }

    /** The loop from `path.indexOf(neighbor)`, which may be -1, to the end of the path. */
    method RecordCycle(neighbor: Id)
      modifies this`cycleNodes
      ensures cycleNodes == AddAll(old(cycleNodes), Loop(path, neighbor))
    {
      var i: int := if neighbor in path then IndexOf(path, neighbor) else -1;
      ghost var loop := Loop(path, neighbor);
      ghost var first := i;
      while i < |path|
        invariant first <= i <= |path|
        invariant cycleNodes == AddAll(old(cycleNodes), loop[..i - first])
      {
        cycleNodes := Add(cycleNodes, if i < 0 then None else Some(path[i]));
        assert loop[..i + 1 - first][..i - first] == loop[..i - first];
        i := i + 1;
      }
      cycleNodes := Add(cycleNodes, Some(neighbor));
      assert loop[..i - first] == loop[..|loop| - 1];
    }
  }
}
