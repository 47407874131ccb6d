/**
 Exactly when the list of `detectCycles` (packages/shared/src/dag/dag-validator.ts) names only
 nodes on cycles, and when it names all of them, told from the tasks and edges.

 A search from a task that can reach a cycle always ends with one found. Neighbors that cannot
 reach a cycle only turn black on the way, so the nodes it leaves gray are its trail: from each
 node on to the first neighbor that can reach a cycle. A later search that runs into the trail of
 an earlier one reports `undefined`; any other lists the nodes to which its trail comes back.
 */
module DetectedCycles {
  import opened Types
  import opened Sequences
  import opened Graphs
  import opened DepthFirstSearches
  import opened DagValidator

  // ----- Trails -----

  ghost predicate LeadsToCycle(g: Graph, n: Id) {
    exists p :: IsWalk(g.arcs, p) && p[0] == n && OnCycle(g, p[|p| - 1])
  }

  /** The nodes from which some cycle can be reached. */
  ghost function Trapped(g: Graph): set<Id> {
    set n | n in g.nodes && LeadsToCycle(g, n)
  }

  function FirstIn(s: seq<Id>, W: set<Id>, default: Id): Id {
    if s == [] then default else if s[0] in W then s[0] else FirstIn(s[1..], W, default)
  }

  /** The neighbor by which the trail of x goes on. */
  function Next(adj: map<Id, seq<Id>>, W: set<Id>, x: Id): Id {
    if x in adj then FirstIn(adj[x], W, x) else x
  }

  function Iterate(adj: map<Id, seq<Id>>, W: set<Id>, x: Id, k: nat): Id {
    if k == 0 then x else Next(adj, W, Iterate(adj, W, x, k - 1))
  }

  ghost predicate OnTrail(adj: map<Id, seq<Id>>, W: set<Id>, x: Id, y: Id) {
    exists k: nat :: Iterate(adj, W, x, k) == y
  }

  ghost predicate Meet(adj: map<Id, seq<Id>>, W: set<Id>, x: Id, y: Id) {
    exists z :: OnTrail(adj, W, x, z) && OnTrail(adj, W, y, z)
  }

  /** The first task whose trail meets the trail of y. */
  ghost predicate IsFirstToMeet(adj: map<Id, seq<Id>>, W: set<Id>, ids: seq<Id>, i: int, y: Id) {
    && 0 <= i < |ids| && ids[i] in W && Meet(adj, W, ids[i], y)
    && forall j :: 0 <= j < i && ids[j] in W ==> !Meet(adj, W, ids[j], y)
  }

  /** Every node that can reach a cycle lies on the trail of the first task whose trail meets its own. */
  ghost predicate FirstTrailsCover(adj: map<Id, seq<Id>>, W: set<Id>, ids: seq<Id>) {
    forall y, i :: y in W && IsFirstToMeet(adj, W, ids, i, y) ==> OnTrail(adj, W, ids[i], y)
  }

  /** What the search needs of the trapped nodes. */
  ghost predicate IsTrap(g: Graph, adj: map<Id, seq<Id>>, W: set<Id>) {
    && W <= g.nodes && Represents(adj, g)
    && (forall u, v :: (u, v) in g.arcs && v in W ==> u in W)
    && (forall u {:trigger Next(adj, W, u)} :: u in W ==> Next(adj, W, u) in W && Next(adj, W, u) in adj[u])
    && (forall c :: IsCycle(g, c) ==> c[0] in W)
  }

  lemma CycleLeadsToItself(g: Graph, n: Id)
    requires OnCycle(g, n)
    ensures LeadsToCycle(g, n)
  {
    assert IsWalk(g.arcs, [n]) && [n][0] == n;
  }

  lemma TrapGoesOn(g: Graph, u: Id) returns (v: Id)
    requires g.Valid() && LeadsToCycle(g, u)
    ensures (u, v) in g.arcs && LeadsToCycle(g, v)
  {
    var p :| IsWalk(g.arcs, p) && p[0] == u && OnCycle(g, p[|p| - 1]);
    if |p| > 1 {
      var q := p[1..];
      v := p[1];
      assert (p[0], p[1]) in g.arcs;
      assert IsWalk(g.arcs, q) by {
        forall i, j | 0 <= i < j < |q| && j == i + 1 ensures (q[i], q[j]) in g.arcs {
          assert (p[i + 1], p[j + 1]) in g.arcs;
        }
      }
      assert q[0] == v && q[|q| - 1] == p[|p| - 1];
    } else {
      var c :| IsCycle(g, c) && u in c;
      var k :| 0 <= k < |c| && c[k] == u;
      v := if k + 1 < |c| then c[k + 1] else c[0];
      assert v in c;
      CycleLeadsToItself(g, v);
    }
  }

  lemma {:induction false} FirstInIsIn(s: seq<Id>, W: set<Id>, default: Id)
    requires exists v :: v in s && v in W
    ensures FirstIn(s, W, default) in s && FirstIn(s, W, default) in W
  {
    if s[0] !in W {
      FirstInIsIn(s[1..], W, default);
    }
  }

  lemma TrappedIsTrap(g: Graph, adj: map<Id, seq<Id>>)
    requires Represents(adj, g)
    ensures IsTrap(g, adj, Trapped(g))
  {
    var W := Trapped(g);
    forall u, v | (u, v) in g.arcs && v in W ensures u in W {
      var p :| IsWalk(g.arcs, p) && p[0] == v && OnCycle(g, p[|p| - 1]);
      var q := [u] + p;
      assert IsWalk(g.arcs, q) && q[0] == u && q[|q| - 1] == p[|p| - 1];
    }
    forall u | u in W ensures Next(adj, W, u) in W && Next(adj, W, u) in adj[u] {
      var v := TrapGoesOn(g, u);
      assert v in adj[u] && v in W;
      FirstInIsIn(adj[u], W, u);
    }
    forall c | IsCycle(g, c) ensures c[0] in W {
      assert (c[|c| - 1], c[0]) in g.arcs && c[0] in c;
      CycleLeadsToItself(g, c[0]);
    }
  }

  lemma {:induction false} IterateAdds(adj: map<Id, seq<Id>>, W: set<Id>, x: Id, j: nat, k: nat)
    ensures Iterate(adj, W, Iterate(adj, W, x, j), k) == Iterate(adj, W, x, j + k)
    decreases k
  {
    if k > 0 {
      IterateAdds(adj, W, x, j, k - 1);
    }
  }

  lemma TrailsCompose(adj: map<Id, seq<Id>>, W: set<Id>, x: Id, y: Id, z: Id)
    requires OnTrail(adj, W, x, y) && OnTrail(adj, W, y, z)
    ensures OnTrail(adj, W, x, z)
  {
    var j: nat :| Iterate(adj, W, x, j) == y;
    var k: nat :| Iterate(adj, W, y, k) == z;
    IterateAdds(adj, W, x, j, k);
  }

  lemma TrailStarts(adj: map<Id, seq<Id>>, W: set<Id>, x: Id)
    ensures OnTrail(adj, W, x, x) && OnTrail(adj, W, x, Next(adj, W, x))
  {
    assert Iterate(adj, W, x, 0) == x;
    assert Iterate(adj, W, x, 1) == Next(adj, W, x);
  }

  /** A set that the trail does not leave holds all of it. */
  lemma {:induction false} TrailStaysIn(adj: map<Id, seq<Id>>, W: set<Id>, x: Id, k: nat, S: iset<Id>)
    requires x in S && forall y :: y in S ==> Next(adj, W, y) in S
    ensures Iterate(adj, W, x, k) in S
  {
    if k > 0 {
      TrailStaysIn(adj, W, x, k - 1, S);
    }
  }

  // ----- One search -----

  ghost predicate Colored(g: Graph, W: set<Id>, s: Search) {
    && s.color.Keys == g.nodes
    && NoDuplicates(s.path) && (s.path != [] ==> IsWalk(g.arcs, s.path))
    && (forall n :: n in s.path ==> n in s.color && s.color[n] == Gray)
    && (forall n :: n in s.color && s.color[n] == Black ==> n !in W)
    && (forall n :: n in s.color && s.color[n] == Gray ==> n in W || n in s.path)
  }

  /** A search that finds nothing: only white nodes outside W have changed, to black. */
  ghost predicate PassedBy(g: Graph, W: set<Id>, s: Search, s': Search) {
    && Colored(g, W, s') && s'.path == s.path && s'.cycleNodes == s.cycleNodes && s'.color.Keys == s.color.Keys
    && forall n :: n in s.color ==> s'.color[n] == s.color[n] || (n !in W && s.color[n] == White && s'.color[n] == Black)
  }

  lemma EnterColored(g: Graph, W: set<Id>, s: Search, n: Id)
    requires Colored(g, W, s) && n in InColor(s.color, White) && CanEnter(g, s, n)
    ensures Colored(g, W, Enter(s, n)) && InColor(Enter(s, n).color, White) == InColor(s.color, White) - {n}
  {
    var entered := Enter(s, n);
    forall x ensures x in entered.path <==> x in s.path || x == n { }
  }

  lemma LeavePassedBy(g: Graph, W: set<Id>, s: Search, n: Id, after: Search)
    requires Colored(g, W, s) && n in InColor(s.color, White) && n !in W
    requires PassedBy(g, W, Enter(s, n), after)
    ensures PassedBy(g, W, s, Leave(after, n))
  {
    assert Pop(after.path) == s.path;
    forall x ensures x in after.path <==> x in s.path || x == n { }
    assert n !in s.path;
  }

  /** Outside W there is no cycle for a search to find. */
  lemma GrayNeighborIsTrapped(g: Graph, adj: map<Id, seq<Id>>, W: set<Id>, s: Search, u: Id, n: Id)
    requires IsTrap(g, adj, W) && Colored(g, W, s) && s.path != [] && s.path[|s.path| - 1] == u
    requires (u, n) in g.arcs && n in s.color && s.color[n] == Gray
    ensures n in W
  {
    if n in s.path {
      GrayClosesCycle(g, s, n);
      assert s.path[IndexOf(s.path, n)..][0] == n;
    }
  }

  lemma {:induction false} PlainVisit(g: Graph, adj: map<Id, seq<Id>>, W: set<Id>, s: Search, n: Id)
    requires IsTrap(g, adj, W) && Colored(g, W, s)
    requires n in InColor(s.color, White) && n !in W && CanEnter(g, s, n)
    ensures var (s', found) := Visit(adj, s, n); !found && PassedBy(g, W, s, s')
    decreases InColor(s.color, White), 0
  {
    EnterColored(g, W, s, n);
    PlainVisitAll(g, adj, W, Enter(s, n), n, adj[n]);
    LeavePassedBy(g, W, s, n, VisitAll(adj, Enter(s, n), adj[n]).0);
  }

  lemma {:induction false} PlainVisitAll(g: Graph, adj: map<Id, seq<Id>>, W: set<Id>, s: Search, u: Id, neighbors: seq<Id>)
    requires IsTrap(g, adj, W) && Colored(g, W, s)
    requires s.path != [] && s.path[|s.path| - 1] == u && u !in W
    requires forall v :: v in neighbors && v in g.nodes ==> (u, v) in g.arcs
    ensures var (s', found) := VisitAll(adj, s, neighbors); !found && PassedBy(g, W, s, s')
    decreases InColor(s.color, White), |neighbors| + 1
  {
    if neighbors != [] {
      var n := neighbors[0];
      assert n in neighbors && (n in g.nodes ==> (u, n) in g.arcs && n !in W);
      if n in s.color && s.color[n] == Gray {
        GrayNeighborIsTrapped(g, adj, W, s, u, n);
      } else if n in s.color && s.color[n] == White {
        PlainVisit(g, adj, W, s, n);
        PlainVisitAll(g, adj, W, Visit(adj, s, n).0, u, neighbors[1..]);
      } else {
        PlainVisitAll(g, adj, W, s, u, neighbors[1..]);
      }
    }
  }

  /** A piece of a trail. */
  ghost predicate IsChain(adj: map<Id, seq<Id>>, W: set<Id>, p: seq<Id>) {
    (forall i :: 0 <= i < |p| ==> p[i] in W)
    && forall i, j :: 0 <= i < j < |p| && j == i + 1 ==> p[j] == Next(adj, W, p[i])
  }

  /** The path is a trail that ends at a gray node, and the loop is recorded. */
  ghost predicate EndsAtGray(g: Graph, adj: map<Id, seq<Id>>, W: set<Id>, before: seq<Option<Id>>, s': Search) {
    && s'.path != [] && IsChain(adj, W, s'.path) && NoDuplicates(s'.path) && s'.color.Keys == g.nodes
    && (forall n :: n in s'.color && s'.color[n] == Black ==> n !in W)
    && var m := Next(adj, W, s'.path[|s'.path| - 1]);
       m in s'.color && s'.color[m] == Gray && s'.cycleNodes == AddAll(before, Loop(s'.path, m))
  }

  /** The path has grown by nodes that were not gray, and they are what has turned gray. */
  ghost predicate PathTurnedGray(s: Search, s': Search) {
    && s.path <= s'.path && s'.color.Keys == s.color.Keys
    && (forall n :: n in s'.color ==> (s'.color[n] == Gray <==> s.color[n] == Gray || n in s'.path))
    && (forall i :: |s.path| <= i < |s'.path| ==> s'.path[i] in s.color && s.color[s'.path[i]] != Gray)
  }

  /** A search that has followed the trail to a gray node. */
  ghost predicate Followed(g: Graph, adj: map<Id, seq<Id>>, W: set<Id>, s: Search, s': Search) {
    EndsAtGray(g, adj, W, s.cycleNodes, s') && PathTurnedGray(s, s')
  }

  lemma ChainGrows(g: Graph, adj: map<Id, seq<Id>>, W: set<Id>, p: seq<Id>)
    requires IsTrap(g, adj, W) && IsChain(adj, W, p) && p != []
    ensures IsChain(adj, W, p + [Next(adj, W, p[|p| - 1])])
  {
  }

  lemma ChainCanBeEntered(g: Graph, adj: map<Id, seq<Id>>, W: set<Id>, s: Search, n: Id)
    requires IsTrap(g, adj, W) && IsChain(adj, W, s.path + [n])
    ensures n in W && IsChain(adj, W, s.path) && CanEnter(g, s, n)
  {
    var p := s.path + [n];
    assert p[|s.path|] == n;
    assert forall i :: 0 <= i < |s.path| ==> p[i] == s.path[i];
    if s.path != [] {
      assert p[|s.path| - 1] in W && n == Next(adj, W, p[|s.path| - 1]);
    }
  }

  lemma TurnedGrayFromHere(s: Search, n: Id, s': Search)
    requires n in InColor(s.color, White) && PathTurnedGray(Enter(s, n), s')
    ensures PathTurnedGray(s, s') && s.path + [n] <= s'.path
  {
    var entered := Enter(s, n);
    assert s'.path[|s.path|] == n && n in s'.path;
    forall x | x in s'.color ensures s'.color[x] == Gray <==> s.color[x] == Gray || x in s'.path {
      assert x != n ==> entered.color[x] == s.color[x];
    }
    forall i | |s.path| <= i < |s'.path| ensures s'.path[i] in s.color && s.color[s'.path[i]] != Gray {
      assert i > |s.path| ==> entered.color[s'.path[i]] != Gray;
    }
  }

  lemma FollowedAfter(g: Graph, adj: map<Id, seq<Id>>, W: set<Id>, s: Search, passed: Search, s': Search)
    requires Colored(g, W, s) && PassedBy(g, W, s, passed) && Followed(g, adj, W, passed, s')
    ensures Followed(g, adj, W, s, s')
  {
  }

  lemma GrayIsTrapped(g: Graph, adj: map<Id, seq<Id>>, W: set<Id>, s: Search)
    requires Colored(g, W, s) && IsChain(adj, W, s.path)
    ensures forall n :: n in s.color && s.color[n] == Gray ==> n in W
    ensures Colored(g, W, s.(path := []))
  {
    forall n | n in s.path ensures n in W {
      var i :| 0 <= i < |s.path| && s.path[i] == n;
    }
  }

  lemma FollowedIsColored(g: Graph, adj: map<Id, seq<Id>>, W: set<Id>, s: Search, s': Search)
    requires Colored(g, W, s) && s.path == [] && Followed(g, adj, W, s, s')
    ensures Colored(g, W, s'.(path := []))
  {
    forall n | n in s'.path ensures n in W {
      var i :| 0 <= i < |s'.path| && s'.path[i] == n;
    }
  }

  lemma GrayEndsTrail(g: Graph, adj: map<Id, seq<Id>>, W: set<Id>, s: Search)
    requires Colored(g, W, s) && IsChain(adj, W, s.path) && s.path != []
    requires var m := Next(adj, W, s.path[|s.path| - 1]); m in s.color && s.color[m] == Gray
    ensures var m := Next(adj, W, s.path[|s.path| - 1]);
            Followed(g, adj, W, s, s.(cycleNodes := AddAll(s.cycleNodes, Loop(s.path, m))))
  {
  }

  lemma {:induction false} TrailVisit(g: Graph, adj: map<Id, seq<Id>>, W: set<Id>, s: Search, n: Id)
    requires IsTrap(g, adj, W) && Colored(g, W, s) && IsChain(adj, W, s.path + [n])
    requires n in InColor(s.color, White)
    ensures var (s', found) := Visit(adj, s, n);
            found && Followed(g, adj, W, s, s') && s.path + [n] <= s'.path
    decreases InColor(s.color, White), 0
  {
    ChainCanBeEntered(g, adj, W, s, n);
    EnterColored(g, W, s, n);
    TrailVisitAll(g, adj, W, Enter(s, n), n, adj[n]);
    TurnedGrayFromHere(s, n, VisitAll(adj, Enter(s, n), adj[n]).0);
  }

  lemma NeighborIsPassed(g: Graph, adj: map<Id, seq<Id>>, W: set<Id>, s: Search, n: Id)
    requires IsTrap(g, adj, W) && Colored(g, W, s) && IsChain(adj, W, s.path) && n !in W
    requires s.path != [] && (n in g.nodes ==> (s.path[|s.path| - 1], n) in g.arcs)
    ensures n in s.color ==> s.color[n] != Gray
    ensures n in InColor(s.color, White) ==> var (s', found) := Visit(adj, s, n); !found && PassedBy(g, W, s, s')
  {
    GrayIsTrapped(g, adj, W, s);
    if n in InColor(s.color, White) {
      PlainVisit(g, adj, W, s, n);
    }
  }

  lemma NeighborIsFollowed(g: Graph, adj: map<Id, seq<Id>>, W: set<Id>, s: Search)
    requires IsTrap(g, adj, W) && Colored(g, W, s) && IsChain(adj, W, s.path) && s.path != []
    ensures var n := Next(adj, W, s.path[|s.path| - 1]);
            && IsChain(adj, W, s.path + [n]) && n in s.color && s.color[n] != Black
            && (s.color[n] == Gray ==>
                  Followed(g, adj, W, s, s.(cycleNodes := AddAll(s.cycleNodes, Loop(s.path, n)))))
  {
    ChainGrows(g, adj, W, s.path);
    var n := Next(adj, W, s.path[|s.path| - 1]);
    if n in s.color && s.color[n] == Gray {
      GrayEndsTrail(g, adj, W, s);
    }
  }

  lemma {:induction false} TrailVisitAll(g: Graph, adj: map<Id, seq<Id>>, W: set<Id>, s: Search, u: Id, neighbors: seq<Id>)
    requires IsTrap(g, adj, W) && Colored(g, W, s) && IsChain(adj, W, s.path)
    requires s.path != [] && s.path[|s.path| - 1] == u
    requires forall v :: v in neighbors && v in g.nodes ==> (u, v) in g.arcs
    requires FirstIn(neighbors, W, u) == Next(adj, W, u) && Next(adj, W, u) in neighbors && Next(adj, W, u) in W
    ensures var (s', found) := VisitAll(adj, s, neighbors); found && Followed(g, adj, W, s, s')
    decreases InColor(s.color, White), |neighbors| + 1
  {
    var n := neighbors[0];
    assert n in neighbors;
    if n in W {
      NeighborIsFollowed(g, adj, W, s);
      if s.color[n] == White {
        TrailVisit(g, adj, W, s, n);
      }
    } else {
      NeighborIsPassed(g, adj, W, s, n);
      if n in InColor(s.color, White) {
        var passed := Visit(adj, s, n).0;
        TrailVisitAll(g, adj, W, passed, u, neighbors[1..]);
        FollowedAfter(g, adj, W, s, passed, VisitAll(adj, passed, neighbors[1..]).0);
      } else {
        TrailVisitAll(g, adj, W, s, u, neighbors[1..]);
      }
    }
  }

  // ----- All searches -----

  /** On the trail of one of the first i tasks: what the searches from them have left gray. */
  ghost predicate Left(adj: map<Id, seq<Id>>, W: set<Id>, ids: seq<Id>, i: int, x: Id) {
    exists j :: 0 <= j < i && j < |ids| && ids[j] in W && OnTrail(adj, W, ids[j], x)
  }

  /** The search from the i-th task runs into the trail of an earlier one. */
  ghost predicate Strays(adj: map<Id, seq<Id>>, W: set<Id>, ids: seq<Id>, i: int) {
    && 0 <= i < |ids| && ids[i] in W && !Left(adj, W, ids, i, ids[i])
    && exists x :: OnTrail(adj, W, ids[i], x) && Left(adj, W, ids, i, x)
  }

  ghost predicate GrayIsLeft(adj: map<Id, seq<Id>>, W: set<Id>, ids: seq<Id>, i: int, s: Search) {
    forall x :: x in s.color ==> (s.color[x] == Gray <==> Left(adj, W, ids, i, x))
  }

  lemma LeftGoesOn(adj: map<Id, seq<Id>>, W: set<Id>, ids: seq<Id>, i: int, x: Id, y: Id)
    requires Left(adj, W, ids, i, x) && OnTrail(adj, W, x, y)
    ensures Left(adj, W, ids, i, y)
  {
    var j :| 0 <= j < i && j < |ids| && ids[j] in W && OnTrail(adj, W, ids[j], x);
    TrailsCompose(adj, W, ids[j], x, y);
  }

  lemma LeftGrows(adj: map<Id, seq<Id>>, W: set<Id>, ids: seq<Id>, i: int, x: Id)
    requires 0 <= i < |ids|
    ensures Left(adj, W, ids, i + 1, x) <==> Left(adj, W, ids, i, x) || (ids[i] in W && OnTrail(adj, W, ids[i], x))
  {
  }

  lemma TrailIsTrapped(g: Graph, adj: map<Id, seq<Id>>, W: set<Id>, x: Id, y: Id)
    requires IsTrap(g, adj, W) && x in W && OnTrail(adj, W, x, y)
    ensures y in W
  {
    var k: nat :| Iterate(adj, W, x, k) == y;
    TrailStaysIn(adj, W, x, k, iset z | z in W);
  }

  lemma {:induction false} ChainIsTrail(adj: map<Id, seq<Id>>, W: set<Id>, p: seq<Id>, i: nat)
    requires IsChain(adj, W, p) && i < |p|
    ensures OnTrail(adj, W, p[0], p[i])
  {
    if i == 0 {
      TrailStarts(adj, W, p[0]);
    } else {
      ChainIsTrail(adj, W, p, i - 1);
      TrailStarts(adj, W, p[i - 1]);
      assert p[i] == Next(adj, W, p[i - 1]);
      TrailsCompose(adj, W, p[0], p[i - 1], p[i]);
    }
  }

  /** A chain that runs into itself is the whole trail; one that runs into what was left ends in it. */
  lemma ChainHoldsTrail(adj: map<Id, seq<Id>>, W: set<Id>, ids: seq<Id>, i: int, p: seq<Id>, y: Id)
    requires IsChain(adj, W, p) && p != [] && OnTrail(adj, W, p[0], y)
    requires var m := Next(adj, W, p[|p| - 1]); m in p || Left(adj, W, ids, i, m)
    ensures y in p || Left(adj, W, ids, i, y)
    ensures Next(adj, W, p[|p| - 1]) in p ==> y in p
  {
    var m := Next(adj, W, p[|p| - 1]);
    var onlyChain := m in p;
    var S := iset z | z in p || (!onlyChain && Left(adj, W, ids, i, z));
    forall z | z in S ensures Next(adj, W, z) in S {
      if z in p {
        var j :| 0 <= j < |p| && p[j] == z;
        if j + 1 < |p| {
          assert p[j + 1] == Next(adj, W, p[j]);
        }
      } else {
        TrailStarts(adj, W, z);
        LeftGoesOn(adj, W, ids, i, z, Next(adj, W, z));
      }
    }
    var k: nat :| Iterate(adj, W, p[0], k) == y;
    TrailStaysIn(adj, W, p[0], k, S);
  }

  /** The path of the search from the i-th task: nothing on it was left before, and it ends in itself or in what was. */
  ghost predicate IsFreshTrail(adj: map<Id, seq<Id>>, W: set<Id>, ids: seq<Id>, i: int, p: seq<Id>) {
    && 0 <= i < |ids| && p != [] && p[0] == ids[i] && IsChain(adj, W, p)
    && (forall x :: x in p ==> !Left(adj, W, ids, i, x))
    && var m := Next(adj, W, p[|p| - 1]); m in p || Left(adj, W, ids, i, m)
  }

  lemma SearchIsFreshTrail(g: Graph, adj: map<Id, seq<Id>>, W: set<Id>, ids: seq<Id>, i: nat, s: Search, s': Search)
    requires GrayIsLeft(adj, W, ids, i, s) && s.path == [] && i < |ids|
    requires Followed(g, adj, W, s, s') && [ids[i]] <= s'.path
    ensures IsFreshTrail(adj, W, ids, i, s'.path)
  {
    var p := s'.path;
    assert p[0] == ids[i];
    forall x | x in p ensures !Left(adj, W, ids, i, x) {
      var j :| 0 <= j < |p| && p[j] == x;
      assert x in s.color && s.color[x] != Gray;
    }
  }

  lemma FreshTrailIsLeft(adj: map<Id, seq<Id>>, W: set<Id>, ids: seq<Id>, i: int, p: seq<Id>, x: Id)
    requires IsFreshTrail(adj, W, ids, i, p)
    ensures Left(adj, W, ids, i + 1, x) <==> Left(adj, W, ids, i, x) || x in p
  {
    LeftGrows(adj, W, ids, i, x);
    assert p[0] in W;
    if OnTrail(adj, W, p[0], x) {
      ChainHoldsTrail(adj, W, ids, i, p, x);
    }
    if x in p {
      var j :| 0 <= j < |p| && p[j] == x;
      ChainIsTrail(adj, W, p, j);
    }
  }

  lemma FreshTrailStaysGray(adj: map<Id, seq<Id>>, W: set<Id>, ids: seq<Id>, i: int, s: Search, s': Search)
    requires GrayIsLeft(adj, W, ids, i, s) && PathTurnedGray(s, s') && IsFreshTrail(adj, W, ids, i, s'.path)
    ensures GrayIsLeft(adj, W, ids, i + 1, s')
  {
    forall x | x in s'.color ensures s'.color[x] == Gray <==> Left(adj, W, ids, i + 1, x) {
      FreshTrailIsLeft(adj, W, ids, i, s'.path, x);
    }
  }

  lemma UndefinedMeansOffPath(before: seq<Option<Id>>, p: seq<Id>, m: Id)
    ensures None in AddAll(before, Loop(p, m)) <==> None in before || m !in p
  {
    if m !in p {
      assert Loop(p, m)[0] == None;
    }
  }

  /** What the search from the i-th task, still white, leaves gray, and when it reports `undefined`. */
  lemma TrailSearch(g: Graph, adj: map<Id, seq<Id>>, W: set<Id>, ids: seq<Id>, i: nat, s: Search)
    requires IsTrap(g, adj, W) && Colored(g, W, s) && s.path == [] && GrayIsLeft(adj, W, ids, i, s)
    requires i < |ids| && ids[i] in W && ids[i] in InColor(s.color, White)
    ensures var s' := Visit(adj, s, ids[i]).0;
            && Colored(g, W, s'.(path := [])) && GrayIsLeft(adj, W, ids, i + 1, s')
            && (None in s'.cycleNodes <==> None in s.cycleNodes || Strays(adj, W, ids, i))
  {
    var n, s' := ids[i], Visit(adj, s, ids[i]).0;
    assert s.path + [n] == [n];
    TrailVisit(g, adj, W, s, n);
    SearchIsFreshTrail(g, adj, W, ids, i, s, s');
    FreshTrailStaysGray(adj, W, ids, i, s, s');
    StrayMeansOffPath(adj, W, ids, i, s'.path);
    UndefinedMeansOffPath(s.cycleNodes, s'.path, Next(adj, W, s'.path[|s'.path| - 1]));
    FollowedIsColored(g, adj, W, s, s');
  }

  lemma StrayMeansOffPath(adj: map<Id, seq<Id>>, W: set<Id>, ids: seq<Id>, i: nat, p: seq<Id>)
    requires IsFreshTrail(adj, W, ids, i, p)
    ensures Strays(adj, W, ids, i) <==> Next(adj, W, p[|p| - 1]) !in p
  {
    var m := Next(adj, W, p[|p| - 1]);
    assert p[0] in W && p[0] in p;
    if m in p {
      forall x | OnTrail(adj, W, ids[i], x) ensures !Left(adj, W, ids, i, x) {
        ChainHoldsTrail(adj, W, ids, i, p, x);
      }
    } else {
      ChainIsTrail(adj, W, p, |p| - 1);
      TrailStarts(adj, W, p[|p| - 1]);
      TrailsCompose(adj, W, p[0], p[|p| - 1], m);
    }
  }

  /** A task that is not white is passed over, and one outside the trap leaves nothing gray. */
  lemma OtherTask(g: Graph, adj: map<Id, seq<Id>>, W: set<Id>, ids: seq<Id>, i: nat, s: Search)
    requires IsTrap(g, adj, W) && Colored(g, W, s) && GrayIsLeft(adj, W, ids, i, s)
    requires i < |ids| && ids[i] in s.color && (ids[i] !in W || s.color[ids[i]] != White)
    ensures GrayIsLeft(adj, W, ids, i + 1, s) && !Strays(adj, W, ids, i)
  {
    forall x | x in s.color ensures s.color[x] == Gray <==> Left(adj, W, ids, i + 1, x) {
      LeftGrows(adj, W, ids, i, x);
      if ids[i] in W && OnTrail(adj, W, ids[i], x) {
        LeftGoesOn(adj, W, ids, i, ids[i], x);
      }
    }
  }

  lemma {:induction false} SearchesStray(g: Graph, adj: map<Id, seq<Id>>, W: set<Id>, ids: seq<Id>, i: nat, s: Search)
    requires IsTrap(g, adj, W) && Colored(g, W, s) && s.path == [] && GrayIsLeft(adj, W, ids, i, s)
    requires i <= |ids| && forall n :: n in ids ==> n in g.nodes
    ensures None in SearchAll(adj, s, ids[i..]).cycleNodes <==>
              None in s.cycleNodes || exists k :: i <= k < |ids| && Strays(adj, W, ids, k)
    decreases |ids| - i
  {
    if i < |ids| {
      var n := ids[i];
      assert n in ids && ids[i..][0] == n && ids[i..][1..] == ids[i + 1..] && s.(path := []) == s;
      if n in InColor(s.color, White) {
        var s' := Visit(adj, s, n).0;
        if n in W {
          TrailSearch(g, adj, W, ids, i, s);
        } else {
          PlainVisit(g, adj, W, s, n);
          OtherTask(g, adj, W, ids, i, s);
        }
        PathIsReset(adj, s', ids[i + 1..]);
        SearchesStray(g, adj, W, ids, i + 1, s'.(path := []));
      } else {
        OtherTask(g, adj, W, ids, i, s);
        SearchesStray(g, adj, W, ids, i + 1, s);
      }
    }
  }

  // ----- Straying told from the trails -----

  lemma MeetByTrail(adj: map<Id, seq<Id>>, W: set<Id>, x: Id, y: Id)
    requires OnTrail(adj, W, x, y)
    ensures Meet(adj, W, x, y) && Meet(adj, W, y, y)
  {
    TrailStarts(adj, W, y);
  }

  lemma {:induction false} FirstToMeet(adj: map<Id, seq<Id>>, W: set<Id>, ids: seq<Id>, k: nat, y: Id) returns (i: nat)
    requires k < |ids| && ids[k] in W && Meet(adj, W, ids[k], y)
    ensures i <= k && IsFirstToMeet(adj, W, ids, i, y)
    decreases k
  {
    if j :| 0 <= j < k && ids[j] in W && Meet(adj, W, ids[j], y) {
      i := FirstToMeet(adj, W, ids, j, y);
    } else {
      i := k;
    }
  }

  lemma StrayIsNotCovered(adj: map<Id, seq<Id>>, W: set<Id>, ids: seq<Id>, k: int)
    requires Strays(adj, W, ids, k)
    ensures !FirstTrailsCover(adj, W, ids)
  {
    var n := ids[k];
    var x :| OnTrail(adj, W, n, x) && Left(adj, W, ids, k, x);
    var j :| 0 <= j < k && j < |ids| && ids[j] in W && OnTrail(adj, W, ids[j], x);
    assert Meet(adj, W, ids[j], n);
    var i := FirstToMeet(adj, W, ids, j, n);
    assert !OnTrail(adj, W, ids[i], n);
  }

  /** The first task on whose trail y lies. */
  lemma {:induction false} FirstToPass(adj: map<Id, seq<Id>>, W: set<Id>, ids: seq<Id>, k: nat, y: Id) returns (i: nat)
    requires k < |ids| && ids[k] in W && OnTrail(adj, W, ids[k], y)
    ensures i <= k && ids[i] in W && OnTrail(adj, W, ids[i], y) && !Left(adj, W, ids, i, y)
    decreases k
  {
    if j :| 0 <= j < k && ids[j] in W && OnTrail(adj, W, ids[j], y) {
      i := FirstToPass(adj, W, ids, j, y);
    } else {
      i := k;
    }
  }

  lemma UncoveredIsStray(adj: map<Id, seq<Id>>, W: set<Id>, ids: seq<Id>, y: Id, i: nat, k: nat) returns (stray: nat)
    requires y in W && IsFirstToMeet(adj, W, ids, i, y) && !OnTrail(adj, W, ids[i], y)
    requires k < |ids| && ids[k] == y
    ensures Strays(adj, W, ids, stray)
  {
    TrailStarts(adj, W, y);
    stray := FirstToPass(adj, W, ids, k, y);
    var n := ids[stray];
    MeetByTrail(adj, W, n, y);
    assert i < stray;
    if Left(adj, W, ids, stray, n) {
      LeftGoesOn(adj, W, ids, stray, n, y);
    }
    var z :| OnTrail(adj, W, ids[i], z) && OnTrail(adj, W, y, z);
    TrailsCompose(adj, W, n, y, z);
    assert Left(adj, W, ids, stray, z);
  }

  lemma CoveredExactly(adj: map<Id, seq<Id>>, W: set<Id>, ids: seq<Id>)
    requires forall y :: y in W ==> y in ids
    ensures FirstTrailsCover(adj, W, ids) <==> !exists k :: 0 <= k < |ids| && Strays(adj, W, ids, k)
  {
    if !FirstTrailsCover(adj, W, ids) {
      var y, i :| y in W && IsFirstToMeet(adj, W, ids, i, y) && !OnTrail(adj, W, ids[i], y);
      var k :| 0 <= k < |ids| && ids[k] == y;
      var stray := UncoveredIsStray(adj, W, ids, y, i, k);
    }
    if k :| 0 <= k < |ids| && Strays(adj, W, ids, k) {
      StrayIsNotCovered(adj, W, ids, k);
    }
  }

  lemma UndefinedExactly(g: Graph, adj: map<Id, seq<Id>>, W: set<Id>, ids: seq<Id>)
    requires IsTrap(g, adj, W) && forall n :: n in ids <==> n in g.nodes
    ensures None !in SearchAll(adj, DepthFirstSearches.Start(g.nodes), ids).cycleNodes <==> FirstTrailsCover(adj, W, ids)
  {
    assert ids[0..] == ids;
    SearchesStray(g, adj, W, ids, 0, DepthFirstSearches.Start(g.nodes));
    CoveredExactly(adj, W, ids);
  }

  /**
   Half of the promise "the node IDs involved in cycles", told before the call: only such nodes are
   listed exactly when every task that can reach a cycle lies on the trail of the first task whose
   trail meets its own.
   */
  lemma CyclesGenuineExactly(tasks: seq<TaskDefinition>, edges: seq<Edge>)
    ensures var g, adj := GraphOf(tasks, edges), Adjacency(tasks, edges);
            Genuine(g, Cycles(tasks, edges)) <==> FirstTrailsCover(adj, Trapped(g), Ids(tasks))
  {
    var g, adj, ids := GraphOf(tasks, edges), Adjacency(tasks, edges), Ids(tasks);
    AdjacencyRepresents(tasks, edges);
    TrappedIsTrap(g, adj);
    IdsAreNodes(tasks);
    GenuineWithoutUndefined(tasks, edges);
    UndefinedExactly(g, adj, Trapped(g), ids);
  }

  // ----- What is listed when nothing strays -----

  /** The trail of y comes back to y. */
  ghost predicate Turns(adj: map<Id, seq<Id>>, W: set<Id>, y: Id) {
    OnTrail(adj, W, Next(adj, W, y), y)
  }

  /** A node from which a chain runs into itself comes back if the chain runs into it or before it. */
  lemma LaterPartTurns(adj: map<Id, seq<Id>>, W: set<Id>, p: seq<Id>, l: nat, i: nat)
    requires IsChain(adj, W, p) && l <= i < |p| && Next(adj, W, p[|p| - 1]) == p[l]
    ensures Turns(adj, W, p[i])
  {
    var front := p[l..i + 1];
    ChainIsTrail(adj, W, front, |front| - 1);
    if i + 1 < |p| {
      var back := p[i + 1..];
      ChainIsTrail(adj, W, back, |back| - 1);
      TrailStarts(adj, W, p[|p| - 1]);
      TrailsCompose(adj, W, back[0], p[|p| - 1], p[l]);
      TrailsCompose(adj, W, back[0], p[l], p[i]);
      assert back[0] == Next(adj, W, p[i]);
    }
  }

  lemma RestIsClosed(adj: map<Id, seq<Id>>, W: set<Id>, p: seq<Id>, l: nat, i: nat, z: Id)
    requires IsChain(adj, W, p) && i < l < |p| && Next(adj, W, p[|p| - 1]) == p[l]
    requires z in p[i + 1..]
    ensures Next(adj, W, z) in p[i + 1..]
  {
    var j :| i + 1 <= j < |p| && p[j] == z;
    var k := if j + 1 < |p| then j + 1 else l;
    assert p[k] == Next(adj, W, z) && p[i + 1..][k - i - 1] == p[k];
  }

  lemma EarlierPartDoesNotTurn(adj: map<Id, seq<Id>>, W: set<Id>, p: seq<Id>, l: nat, i: nat)
    requires IsChain(adj, W, p) && NoDuplicates(p) && i < l < |p| && Next(adj, W, p[|p| - 1]) == p[l]
    ensures !Turns(adj, W, p[i])
  {
    if Turns(adj, W, p[i]) {
      var rest := p[i + 1..];
      forall z | z in rest ensures Next(adj, W, z) in rest {
        RestIsClosed(adj, W, p, l, i, z);
      }
      assert rest[0] == Next(adj, W, p[i]);
      var k: nat :| Iterate(adj, W, rest[0], k) == p[i];
      TrailStaysIn(adj, W, rest[0], k, iset z | z in rest);
    }
  }

  /** On a chain that runs into itself the nodes that come back are those from there on. */
  lemma TurningPart(adj: map<Id, seq<Id>>, W: set<Id>, p: seq<Id>, i: nat)
    requires IsChain(adj, W, p) && NoDuplicates(p) && i < |p|
    requires Next(adj, W, p[|p| - 1]) in p
    ensures Turns(adj, W, p[i]) <==> IndexOf(p, Next(adj, W, p[|p| - 1])) <= i
  {
    var l := IndexOf(p, Next(adj, W, p[|p| - 1]));
    if l <= i {
      LaterPartTurns(adj, W, p, l, i);
    } else {
      EarlierPartDoesNotTurn(adj, W, p, l, i);
    }
  }

  lemma KnownHolds(ids: seq<Id>, y: Id)
    ensures Some(y) in Known(ids) <==> y in ids
  {
    if y in ids {
      assert Known(ids)[IndexOf(ids, y)] == Some(y);
    }
  }

  lemma LaterPartHolds(p: seq<Id>, l: nat, y: Id)
    requires NoDuplicates(p) && l < |p|
    ensures y in p[l..] <==> y in p && l <= IndexOf(p, y)
  {
    if y in p && l <= IndexOf(p, y) {
      assert p[l..][IndexOf(p, y) - l] == y;
    }
  }

  lemma LoopHolds(p: seq<Id>, m: Id, y: Id)
    requires NoDuplicates(p) && m in p
    ensures Some(y) in Loop(p, m) <==> y in p && IndexOf(p, m) <= IndexOf(p, y)
  {
    KnownHolds(p[IndexOf(p, m)..], y);
    LaterPartHolds(p, IndexOf(p, m), y);
  }

  /** A search that does not stray lists, of its trail, exactly the nodes that come back to themselves. */
  lemma TrailIsListed(adj: map<Id, seq<Id>>, W: set<Id>, ids: seq<Id>, i: nat, p: seq<Id>, before: seq<Option<Id>>, y: Id)
    requires IsFreshTrail(adj, W, ids, i, p) && NoDuplicates(p) && !Strays(adj, W, ids, i)
    ensures var all := AddAll(before, Loop(p, Next(adj, W, p[|p| - 1])));
            Some(y) in all <==> Some(y) in before || (OnTrail(adj, W, ids[i], y) && Turns(adj, W, y))
  {
    var m := Next(adj, W, p[|p| - 1]);
    StrayMeansOffPath(adj, W, ids, i, p);
    LoopHolds(p, m, y);
    if OnTrail(adj, W, ids[i], y) {
      ChainHoldsTrail(adj, W, ids, i, p, y);
    }
    if y in p {
      ChainIsTrail(adj, W, p, IndexOf(p, y));
      TurningPart(adj, W, p, IndexOf(p, y));
    }
  }

  lemma SearchLists(g: Graph, adj: map<Id, seq<Id>>, W: set<Id>, ids: seq<Id>, i: nat, s: Search, y: Id)
    requires IsTrap(g, adj, W) && Colored(g, W, s) && s.path == [] && GrayIsLeft(adj, W, ids, i, s)
    requires i < |ids| && ids[i] in W && ids[i] in InColor(s.color, White) && !Strays(adj, W, ids, i)
    ensures Some(y) in Visit(adj, s, ids[i]).0.cycleNodes <==>
              Some(y) in s.cycleNodes || (OnTrail(adj, W, ids[i], y) && Turns(adj, W, y))
  {
    var n, s' := ids[i], Visit(adj, s, ids[i]).0;
    assert s.path + [n] == [n];
    TrailVisit(g, adj, W, s, n);
    SearchIsFreshTrail(g, adj, W, ids, i, s, s');
    TrailIsListed(adj, W, ids, i, s'.path, s.cycleNodes, y);
  }

  /** The k-th task is searched from, and y lies on its trail and comes back to itself. */
  ghost predicate ListedFrom(adj: map<Id, seq<Id>>, W: set<Id>, ids: seq<Id>, k: int, y: Id) {
    0 <= k < |ids| && ids[k] in W && !Left(adj, W, ids, k, ids[k]) && OnTrail(adj, W, ids[k], y) && Turns(adj, W, y)
  }

  /** The state of the search when the i-th task has been dealt with. */
  function AfterTask(adj: map<Id, seq<Id>>, s: Search, n: Id): Search {
    if n in InColor(s.color, White) then Visit(adj, s, n).0.(path := []) else s
  }

  lemma TaskLists(g: Graph, adj: map<Id, seq<Id>>, W: set<Id>, ids: seq<Id>, i: nat, s: Search, y: Id)
    requires IsTrap(g, adj, W) && Colored(g, W, s) && s.path == [] && GrayIsLeft(adj, W, ids, i, s)
    requires i < |ids| && ids[i] in g.nodes && !Strays(adj, W, ids, i)
    ensures var s' := AfterTask(adj, s, ids[i]);
            && Colored(g, W, s') && s'.path == [] && GrayIsLeft(adj, W, ids, i + 1, s')
            && (Some(y) in s'.cycleNodes <==> Some(y) in s.cycleNodes || ListedFrom(adj, W, ids, i, y))
  {
    var n := ids[i];
    if n in InColor(s.color, White) && n in W {
      TrailSearch(g, adj, W, ids, i, s);
      SearchLists(g, adj, W, ids, i, s, y);
    } else if n in InColor(s.color, White) {
      PlainVisit(g, adj, W, s, n);
      OtherTask(g, adj, W, ids, i, s);
    } else {
      OtherTask(g, adj, W, ids, i, s);
    }
  }

  lemma SearchGoesOn(adj: map<Id, seq<Id>>, ids: seq<Id>, i: nat, s: Search)
    requires s.path == [] && i < |ids|
    ensures SearchAll(adj, s, ids[i..]).cycleNodes == SearchAll(adj, AfterTask(adj, s, ids[i]), ids[i + 1..]).cycleNodes
  {
    assert ids[i..][0] == ids[i] && ids[i..][1..] == ids[i + 1..] && s.(path := []) == s;
    if ids[i] in InColor(s.color, White) {
      PathIsReset(adj, Visit(adj, s, ids[i]).0, ids[i + 1..]);
    }
  }

  lemma {:induction false} SearchesList(g: Graph, adj: map<Id, seq<Id>>, W: set<Id>, ids: seq<Id>, i: nat, s: Search, y: Id)
    requires IsTrap(g, adj, W) && Colored(g, W, s) && s.path == [] && GrayIsLeft(adj, W, ids, i, s)
    requires i <= |ids| && forall n :: n in ids ==> n in g.nodes
    requires forall k :: i <= k < |ids| ==> !Strays(adj, W, ids, k)
    ensures Some(y) in SearchAll(adj, s, ids[i..]).cycleNodes <==>
              Some(y) in s.cycleNodes || exists k :: i <= k && ListedFrom(adj, W, ids, k, y)
    decreases |ids| - i
  {
    if i < |ids| {
      TaskLists(g, adj, W, ids, i, s, y);
      SearchGoesOn(adj, ids, i, s);
      SearchesList(g, adj, W, ids, i + 1, AfterTask(adj, s, ids[i]), y);
    }
  }

  lemma ListedFromSome(g: Graph, adj: map<Id, seq<Id>>, W: set<Id>, ids: seq<Id>, y: Id)
    requires IsTrap(g, adj, W) && forall n :: n in W ==> n in ids
    ensures (exists k :: 0 <= k && ListedFrom(adj, W, ids, k, y)) <==> y in W && Turns(adj, W, y)
  {
    if k :| 0 <= k && ListedFrom(adj, W, ids, k, y) {
      TrailIsTrapped(g, adj, W, ids[k], y);
    }
    if y in W && Turns(adj, W, y) {
      var k :| 0 <= k < |ids| && ids[k] == y;
      TrailStarts(adj, W, y);
      var i := FirstToPass(adj, W, ids, k, y);
      if Left(adj, W, ids, i, ids[i]) {
        LeftGoesOn(adj, W, ids, i, ids[i], y);
      }
      assert ListedFrom(adj, W, ids, i, y);
    }
  }

  /** When nothing strays, the list holds exactly the nodes whose trail comes back to them. */
  lemma ListedExactly(tasks: seq<TaskDefinition>, edges: seq<Edge>, y: Id)
    requires FirstTrailsCover(Adjacency(tasks, edges), Trapped(GraphOf(tasks, edges)), Ids(tasks))
    ensures var g, adj := GraphOf(tasks, edges), Adjacency(tasks, edges);
            Some(y) in Cycles(tasks, edges) <==> y in Trapped(g) && Turns(adj, Trapped(g), y)
  {
    var g, adj, ids := GraphOf(tasks, edges), Adjacency(tasks, edges), Ids(tasks);
    var W := Trapped(g);
    AdjacencyRepresents(tasks, edges);
    TrappedIsTrap(g, adj);
    IdsAreNodes(tasks);
    CoveredExactly(adj, W, ids);
    assert ids[0..] == ids;
    SearchesList(g, adj, W, ids, 0, DepthFirstSearches.Start(g.nodes), y);
    ListedFromSome(g, adj, W, ids, y);
  }

  lemma CyclicIsTrapped(g: Graph, n: Id)
    requires g.Valid() && OnCycle(g, n)
    ensures n in Trapped(g)
  {
    var c :| IsCycle(g, c) && n in c;
    var k :| 0 <= k < |c| && c[k] == n;
    assert (c[k], if k + 1 < |c| then c[k + 1] else c[0]) in g.arcs;
    CycleLeadsToItself(g, n);
  }

  /**
   When the promise "the node IDs involved in cycles" is kept, told before the call: the list holds
   exactly the nodes on cycles when, besides, each node on a cycle comes back to itself by going on
   to the first neighbor that can reach a cycle.
   */
  lemma CyclesExactly(tasks: seq<TaskDefinition>, edges: seq<Edge>)
    ensures var g, adj, cycles := GraphOf(tasks, edges), Adjacency(tasks, edges), Cycles(tasks, edges);
            var W := Trapped(g);
            Genuine(g, cycles) && (forall n :: OnCycle(g, n) ==> Some(n) in cycles)
            <==> FirstTrailsCover(adj, W, Ids(tasks)) && forall n :: OnCycle(g, n) ==> OnTrail(adj, W, Next(adj, W, n), n)
  {
    var g := GraphOf(tasks, edges);
    CyclesGenuineExactly(tasks, edges);
    if FirstTrailsCover(Adjacency(tasks, edges), Trapped(g), Ids(tasks)) {
      AdjacencyRepresents(tasks, edges);
      forall n | OnCycle(g, n)
        ensures Some(n) in Cycles(tasks, edges) <==> Turns(Adjacency(tasks, edges), Trapped(g), n)
      {
        ListedExactly(tasks, edges, n);
        CyclicIsTrapped(g, n);
      }
    }
  }

  /** The edges a -> b, b -> c, c -> b and c -> a. */
  ghost predicate IsMissExample(tasks: seq<TaskDefinition>, edges: seq<Edge>, a: Id, b: Id, c: Id) {
    && a != b && b != c && a != c
    && tasks == [Node(a), Node(b), Node(c)]
    && edges == [Arrow(a, b), Arrow(b, c), Arrow(c, b), Arrow(c, a)]
  }

  lemma MissAdjacency(tasks: seq<TaskDefinition>, edges: seq<Edge>, a: Id, b: Id, c: Id)
    requires IsMissExample(tasks, edges, a, b, c)
    ensures var adj := Adjacency(tasks, edges); adj.Keys == {a, b, c} && adj[a] == [b] && adj[b] == [c] && adj[c] == [b, a]
    ensures NodeSet(tasks) == {a, b, c} && Ids(tasks) == [a, b, c]
  {
    var rest := edges[1..];
    forall n ensures Targets(edges, n) == (if n == a then [b] else []) + Targets(rest, n) { }
    TargetsOfThree(rest, a);
    TargetsOfThree(rest, b);
    TargetsOfThree(rest, c);
  }

  lemma MissClosing(adj: map<Id, seq<Id>>, s3: Search, a: Id, b: Id, c: Id)
    requires a != b && b != c && a != c && s3.path == [a, b, c] && s3.cycleNodes == []
    requires b in s3.color && s3.color[b] == Gray
    ensures VisitAll(adj, s3, [b, a]) == (s3.(cycleNodes := [Some(b), Some(c)]), true)
  {
    assert s3.path[1..] == [b, c];
    assert Loop(s3.path, b) == [Some(b), Some(c), Some(b)];
    AddThree([], Some(b), Some(c), Some(b));
    assert Add(Add([], Some(b)), Some(c)) == [Some(b), Some(c)];
  }

  /** When the only neighbor is white and its search finds a cycle, so does this one. */
  lemma FollowsWhite(adj: map<Id, seq<Id>>, s: Search, u: Id, v: Id, s': Search)
    requires u in InColor(s.color, White) && u in adj && adj[u] == [v]
    requires v in InColor(Enter(s, u).color, White) && Visit(adj, Enter(s, u), v) == (s', true)
    ensures Visit(adj, s, u) == (s', true)
  {
    assert VisitAll(adj, Enter(s, u), [v]) == (s', true);
    EndsSearch(adj, s, u, v, s');
  }

  /** The search from a goes a, b, c and back to b. */
  lemma MissSearch(adj: map<Id, seq<Id>>, a: Id, b: Id, c: Id) returns (s: Search)
    requires a != b && b != c && a != c
    requires adj.Keys == {a, b, c} && adj[a] == [b] && adj[b] == [c] && adj[c] == [b, a]
    ensures s == Enter(Enter(Enter(DepthFirstSearches.Start({a, b, c}), a), b), c).(cycleNodes := [Some(b), Some(c)])
    ensures Visit(adj, DepthFirstSearches.Start({a, b, c}), a) == (s, true)
  {
    var s0 := DepthFirstSearches.Start({a, b, c});
    var s1 := Enter(s0, a);
    var s2 := Enter(s1, b);
    var s3 := Enter(s2, c);
    s := s3.(cycleNodes := [Some(b), Some(c)]);
    assert s3.path == [a, b, c];
    MissClosing(adj, s3, a, b, c);
    FollowsWhite(adj, s1, b, c, s);
    FollowsWhite(adj, s0, a, b, s);
  }

  lemma MissIsCyclic(tasks: seq<TaskDefinition>, edges: seq<Edge>, a: Id, b: Id, c: Id)
    requires IsMissExample(tasks, edges, a, b, c)
    ensures var g := GraphOf(tasks, edges); OnCycle(g, a) && OnCycle(g, b) && OnCycle(g, c)
  {
    var g := GraphOf(tasks, edges);
    assert edges[0] in edges && edges[1] in edges && edges[3] in edges;
    assert (a, b) in g.arcs && (b, c) in g.arcs && (c, a) in g.arcs;
    var walk := [a, b, c];
    assert IsCycle(g, walk);
    assert walk[0] in walk && walk[1] in walk && walk[2] in walk;
  }

  lemma MissTrace(tasks: seq<TaskDefinition>, edges: seq<Edge>, a: Id, b: Id, c: Id)
    requires IsMissExample(tasks, edges, a, b, c)
    ensures Cycles(tasks, edges) == [Some(b), Some(c)]
  {
    var adj := Adjacency(tasks, edges);
    MissAdjacency(tasks, edges, a, b, c);
    var s := MissSearch(adj, a, b, c);
    var s0 := DepthFirstSearches.Start({a, b, c});
    assert s0.(path := []) == s0;
    assert [a, b, c][1..] == [b, c] && [b, c][1..] == [c] && [c][1..] == [];
    assert SearchAll(adj, s0, [a, b, c]) == SearchAll(adj, s, [b, c]);
    assert SearchAll(adj, s, [b, c]) == SearchAll(adj, s, [c]) == s;
  }

  lemma MissIsGenuine(tasks: seq<TaskDefinition>, edges: seq<Edge>, a: Id, b: Id, c: Id)
    requires IsMissExample(tasks, edges, a, b, c)
    ensures Genuine(GraphOf(tasks, edges), Cycles(tasks, edges))
  {
    MissTrace(tasks, edges, a, b, c);
    MissIsCyclic(tasks, edges, a, b, c);
    GenuineWithoutUndefined(tasks, edges);
  }

  /**
   The other way to break the promise: the search from a finds b, c and stops, so that a, which is
   on the cycle a, b, c, is not listed. The condition of `CyclesGenuineExactly` holds here.
   */
  lemma CyclesMayMissNodes(tasks: seq<TaskDefinition>, edges: seq<Edge>, a: Id, b: Id, c: Id)
    requires IsMissExample(tasks, edges, a, b, c)
    ensures var g := GraphOf(tasks, edges);
            && Cycles(tasks, edges) == [Some(b), Some(c)] && OnCycle(g, a)
            && FirstTrailsCover(Adjacency(tasks, edges), Trapped(g), Ids(tasks))
  {
    MissTrace(tasks, edges, a, b, c);
    MissIsCyclic(tasks, edges, a, b, c);
    MissIsGenuine(tasks, edges, a, b, c);
    CyclesGenuineExactly(tasks, edges);
  }
}
