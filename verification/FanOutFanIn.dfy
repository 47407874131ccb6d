/**
 Which successors of a completed task become ready, and how "skipped" spreads
 (services/executor-service/src/services/fan-out-fan-in.ts).

 `Skip` and `Evaluate` say what `markSkipped` and `evaluateDownstream` do to the statuses, by
 task definition id; the lemmas are about them. The classes at the end are the code as written:
 it changes shared TaskState objects while the loops of its callers are still reading them.
 */
module FanOutFanIn {
  import opened Types
  import opened Sequences
  import opened Graphs
  import opened TaskQueues
  import opened StateMachine

  type States = map<Id, Status>

  predicate IsDead(s: Status) {
    s == Skipped || s == Failed || s == Cancelled || s == TimedOut
  }

  /** Dead are the terminal statuses without success, and skipped, which is not in the terminal set. */
  lemma DeadWithoutSuccess(s: Status)
    ensures IsDead(s) <==> s == Skipped || (IsTerminalState(s) && s != Completed)
  {
  }

  predicate IsPending(st: States, v: Id) {
    v in st && st[v] == Pending
  }

  function PendingIds(st: States): set<Id> {
    set v | v in st && st[v] == Pending
  }

  predicate AllUpstreamDead(edges: seq<Edge>, st: States, v: Id) {
    forall e :: e in edges && e.target == v ==> e.source in st && IsDead(st[e.source])
  }

  /** `allSatisfied && atLeastOneCompleted`. */
  predicate IsReady(edges: seq<Edge>, st: States, v: Id) {
    && (forall e :: e in edges && e.target == v ==>
          e.source in st && (st[e.source] == Completed || st[e.source] == Skipped))
    && (exists e :: e in edges && e.target == v && e.source in st && st[e.source] == Completed)
  }

  // ----- What markSkipped does -----

  function Skip(edges: seq<Edge>, st: States, t: Id): (r: States)
    ensures r.Keys == st.Keys && PendingIds(r) <= PendingIds(st)
    decreases PendingIds(st), 0
  {
    if IsPending(st, t) then
      var marked := st[t := Skipped];
      assert PendingIds(marked) == PendingIds(st) - {t};
      SkipEach(edges, marked, Targets(edges, t))
    else st
  }

  function SkipEach(edges: seq<Edge>, st: States, targets: seq<Id>): (r: States)
    ensures r.Keys == st.Keys && PendingIds(r) <= PendingIds(st)
    decreases PendingIds(st), |targets| + 1
  {
    if targets == [] then st else
      var st' := if AllUpstreamDead(edges, st, targets[0]) then Skip(edges, st, targets[0]) else st;
      SkipEach(edges, st', targets[1..])
  }

  /** Nothing changes but pending to skipped. */
  predicate OnlySkips(st: States, st': States) {
    st'.Keys == st.Keys && forall v :: v in st ==> st'[v] == st[v] || (st[v] == Pending && st'[v] == Skipped)
  }

  function NewlySkipped(st: States, st': States): set<Id> {
    set v | v in st && v in st' && st[v] == Pending && st'[v] == Skipped
  }

  lemma {:induction false} SkipOnlySkips(edges: seq<Edge>, st: States, t: Id)
    ensures OnlySkips(st, Skip(edges, st, t))
    decreases PendingIds(st), 0
  {
    if IsPending(st, t) {
      var marked := st[t := Skipped];
      assert PendingIds(marked) == PendingIds(st) - {t};
      SkipEachOnlySkips(edges, marked, Targets(edges, t));
    }
  }

  lemma {:induction false} SkipEachOnlySkips(edges: seq<Edge>, st: States, targets: seq<Id>)
    ensures OnlySkips(st, SkipEach(edges, st, targets))
    decreases PendingIds(st), |targets| + 1
  {
    if targets != [] {
      var st' := if AllUpstreamDead(edges, st, targets[0]) then Skip(edges, st, targets[0]) else st;
      SkipOnlySkips(edges, st, targets[0]);
      SkipEachOnlySkips(edges, st', targets[1..]);
    }
  }

  // ----- The skipped set is a least fixpoint -----

  /** A pending task that some task of X points to, all of whose upstreams are dead or in X. */
  ghost predicate Forced(edges: seq<Edge>, st: States, X: set<Id>, v: Id) {
    && IsPending(st, v)
    && (exists e :: e in edges && e.target == v && e.source in X)
    && (forall e :: e in edges && e.target == v ==> e.source in st && (IsDead(st[e.source]) || e.source in X))
  }

  ghost predicate SkipClosed(edges: seq<Edge>, st: States, X: set<Id>) {
    forall v :: Forced(edges, st, X, v) ==> v in X
  }

  /** No more than any closed set: whatever is skipped had to be. */
  lemma {:induction false} SkipStaysWithin(edges: seq<Edge>, st0: States, st: States, t: Id, X: set<Id>)
    requires SkipClosed(edges, st0, X) && t in X
    requires OnlySkips(st0, st) && NewlySkipped(st0, st) <= X
    ensures OnlySkips(st0, Skip(edges, st, t)) && NewlySkipped(st0, Skip(edges, st, t)) <= X
    decreases PendingIds(st), 0
  {
    if IsPending(st, t) {
      var marked := st[t := Skipped];
      assert PendingIds(marked) == PendingIds(st) - {t};
      forall v | v in Targets(edges, t) ensures exists e :: e in edges && e.target == v && e.source in X {
        TargetsAreArcs(edges, t, v);
      }
      SkipEachStaysWithin(edges, st0, marked, Targets(edges, t), X);
    }
  }

  lemma {:induction false} SkipEachStaysWithin(
    edges: seq<Edge>, st0: States, st: States, targets: seq<Id>, X: set<Id>)
    requires SkipClosed(edges, st0, X)
    requires forall v :: v in targets ==> exists e :: e in edges && e.target == v && e.source in X
    requires OnlySkips(st0, st) && NewlySkipped(st0, st) <= X
    ensures var st' := SkipEach(edges, st, targets); OnlySkips(st0, st') && NewlySkipped(st0, st') <= X
    decreases PendingIds(st), |targets| + 1
  {
    if targets != [] {
      var v := targets[0];
      assert v in targets && forall w :: w in targets[1..] ==> w in targets;
      var st' := if AllUpstreamDead(edges, st, v) then Skip(edges, st, v) else st;
      if AllUpstreamDead(edges, st, v) && IsPending(st, v) {
        assert Forced(edges, st0, X, v);
        SkipStaysWithin(edges, st0, st, v, X);
      }
      SkipEachStaysWithin(edges, st0, st', targets[1..], X);
    }
  }

  /**
   Nothing is left to skip: a pending task with only dead upstreams, one of them newly skipped,
   is among those that some loop, of this call or of a caller, has still to look at.
   */
  ghost predicate Settled(edges: seq<Edge>, st0: States, st: States, todo: set<Id>) {
    forall e :: e in edges && e.source in NewlySkipped(st0, st)
                && IsPending(st, e.target) && AllUpstreamDead(edges, st, e.target)
                ==> e.target in todo
  }

  lemma {:induction false} SkipSettles(edges: seq<Edge>, st0: States, st: States, t: Id, todo: set<Id>)
    requires OnlySkips(st0, st) && Settled(edges, st0, st, todo + {t})
    ensures OnlySkips(st0, Skip(edges, st, t)) && Settled(edges, st0, Skip(edges, st, t), todo)
    decreases PendingIds(st), 0
  {
    if IsPending(st, t) {
      var marked := st[t := Skipped];
      var targets := Targets(edges, t);
      assert PendingIds(marked) == PendingIds(st) - {t};
      MarkingSettles(edges, st0, st, t, todo);
      SkipEachSettles(edges, st0, marked, targets, todo);
    }
  }

  lemma MarkingSettles(edges: seq<Edge>, st0: States, st: States, t: Id, todo: set<Id>)
    requires OnlySkips(st0, st) && Settled(edges, st0, st, todo + {t}) && IsPending(st, t)
    ensures Settled(edges, st0, st[t := Skipped], todo + (set v | v in Targets(edges, t)))
  {
    var marked := st[t := Skipped];
    forall e | e in edges && e.source in NewlySkipped(st0, marked)
               && IsPending(marked, e.target) && AllUpstreamDead(edges, marked, e.target)
      ensures e.target in todo + (set v | v in Targets(edges, t))
    {
      TargetsAreArcs(edges, t, e.target);
      if e.target !in Targets(edges, t) {
        assert forall e' :: e' in edges && e'.target == e.target ==> (e'.source, e.target) in Arcs(edges);
        assert AllUpstreamDead(edges, st, e.target);
      }
    }
  }

  lemma {:induction false} SkipEachSettles(
    edges: seq<Edge>, st0: States, st: States, targets: seq<Id>, todo: set<Id>)
    requires OnlySkips(st0, st) && Settled(edges, st0, st, todo + (set v | v in targets))
    ensures var st' := SkipEach(edges, st, targets); OnlySkips(st0, st') && Settled(edges, st0, st', todo)
    decreases PendingIds(st), |targets| + 1
  {
    if targets == [] {
      assert todo + (set v | v in targets) == todo;
    } else {
      var v := targets[0];
      var st' := if AllUpstreamDead(edges, st, v) then Skip(edges, st, v) else st;
      var rest := todo + (set w | w in targets[1..]);
      assert todo + (set w | w in targets) == rest + {v} by {
        assert forall w :: w in targets <==> w == v || w in targets[1..];
      }
      if AllUpstreamDead(edges, st, v) {
        SkipSettles(edges, st0, st, v, rest);
      }
      SkipEachSettles(edges, st0, st', targets[1..], todo);
    }
  }

  lemma SettledIsClosed(edges: seq<Edge>, st0: States, st: States)
    requires OnlySkips(st0, st) && Settled(edges, st0, st, {})
    ensures SkipClosed(edges, st0, NewlySkipped(st0, st))
  {
    var X := NewlySkipped(st0, st);
    forall v | Forced(edges, st0, X, v) ensures v in X {
      if v !in X {
        assert AllUpstreamDead(edges, st, v);
      }
    }
  }

  /**
   Marking the pending task `t` skips exactly the least set that holds `t` and every task forced
   by the set. A least set is unique, so the order in which edges are visited does not matter.
   */
  lemma SkipIsLeastFixpoint(edges: seq<Edge>, st: States, t: Id)
    requires IsPending(st, t)
    ensures var X := NewlySkipped(st, Skip(edges, st, t));
            && OnlySkips(st, Skip(edges, st, t))
            && t in X && SkipClosed(edges, st, X)
            && forall Y :: t in Y && SkipClosed(edges, st, Y) ==> X <= Y
  {
    SkipOnlySkips(edges, st, t);
    var st' := Skip(edges, st, t);
    assert NewlySkipped(st, st) == {};
    SkipSettles(edges, st, st, t, {});
    SettledIsClosed(edges, st, st');
    SkipEachOnlySkips(edges, st[t := Skipped], Targets(edges, t));
    forall Y | t in Y && SkipClosed(edges, st, Y) ensures NewlySkipped(st, st') <= Y {
      SkipStaysWithin(edges, st, st, t, Y);
    }
  }

  lemma SkipIgnoresEdgeOrder(edges: seq<Edge>, edges': seq<Edge>, st: States, t: Id)
    requires Arcs(edges) == Arcs(edges')
    ensures Skip(edges, st, t) == Skip(edges', st, t)
  {
    if IsPending(st, t) {
      SkipIsLeastFixpoint(edges, st, t);
      SkipIsLeastFixpoint(edges', st, t);
      var X, X' := NewlySkipped(st, Skip(edges, st, t)), NewlySkipped(st, Skip(edges', st, t));
      forall Y | SkipClosed(edges, st, Y) ensures SkipClosed(edges', st, Y) { ClosedIgnoresOrder(edges, edges', st, Y); }
      forall Y | SkipClosed(edges', st, Y) ensures SkipClosed(edges, st, Y) { ClosedIgnoresOrder(edges', edges, st, Y); }
      assert X == X';
      var r, r' := Skip(edges, st, t), Skip(edges', st, t);
      forall v | v in st ensures r[v] == r'[v] { assert v in X <==> v in X'; }
    }
  }

  lemma ClosedIgnoresOrder(edges: seq<Edge>, edges': seq<Edge>, st: States, Y: set<Id>)
    requires Arcs(edges) == Arcs(edges') && SkipClosed(edges, st, Y)
    ensures SkipClosed(edges', st, Y)
  {
    forall v | Forced(edges', st, Y, v) ensures v in Y {
      forall e | e in edges ensures exists e' :: e' in edges' && e'.source == e.source && e'.target == e.target {
        assert (e.source, e.target) in Arcs(edges');
      }
      forall e' | e' in edges' ensures exists e :: e in edges && e'.source == e.source && e'.target == e.target {
        assert (e'.source, e'.target) in Arcs(edges);
      }
      assert Forced(edges, st, Y, v);
    }
  }

  // ----- What evaluateDownstream does -----

  /** An empty expression counts as no condition. */
  predicate HasCondition(e: Edge) {
    e.conditionExpr.Some? && e.conditionExpr.value != ""
  }

  datatype Evaluation = Evaluation(states: States, ready: seq<Id>)

  /** One round of the loop over the outgoing edges. `passes` is the outcome of the condition of an edge. */
  function Consider(edges: seq<Edge>, r: Evaluation, e: Edge, passes: Edge -> bool): Evaluation {
    if !IsPending(r.states, e.target) then r
    else if HasCondition(e) && !passes(e) then r.(states := Skip(edges, r.states, e.target))
    else if IsReady(edges, r.states, e.target) then r.(ready := r.ready + [e.target])
    else r
  }

  lemma ConsiderAppends(edges: seq<Edge>, r: Evaluation, e: Edge, passes: Edge -> bool)
    ensures var alone := Consider(edges, Evaluation(r.states, []), e, passes);
            Consider(edges, r, e, passes) == Evaluation(alone.states, r.ready + alone.ready)
  {
  }

  function ConsiderAll(edges: seq<Edge>, r: Evaluation, outgoing: seq<Edge>, passes: Edge -> bool): Evaluation {
    if outgoing == [] then r else
      Consider(edges, ConsiderAll(edges, r, outgoing[..|outgoing| - 1], passes), outgoing[|outgoing| - 1], passes)
  }

  function Outgoing(edges: seq<Edge>, u: Id): seq<Edge> {
    Filter(edges, (e: Edge) => e.source == u)
  }

  function Evaluate(edges: seq<Edge>, st: States, u: Id, passes: Edge -> bool): Evaluation {
    ConsiderAll(edges, Evaluation(st, []), Outgoing(edges, u), passes)
  }

  /** The database keeps the (source, target) pairs of a workflow unique. */
  ghost predicate UniquePairs(edges: seq<Edge>) {
    forall i, j :: 0 <= i < j < |edges| ==> (edges[i].source, edges[i].target) != (edges[j].source, edges[j].target)
  }

  /** A task with a completed upstream is skipped only if the call names it. */
  lemma SkipSpares(edges: seq<Edge>, st: States, t: Id, v: Id)
    requires v != t && IsPending(st, v)
    requires exists e :: e in edges && e.target == v && e.source in st && st[e.source] == Completed
    ensures IsPending(Skip(edges, st, t), v)
    ensures IsReady(edges, st, v) ==> IsReady(edges, Skip(edges, st, t), v)
  {
    SkipOnlySkips(edges, st, t);
    var st' := Skip(edges, st, t);
    var e :| e in edges && e.target == v && e.source in st && st[e.source] == Completed;
    if IsPending(st, t) {
      var X := PendingIds(st) - {v};
      assert SkipClosed(edges, st, X);
      assert NewlySkipped(st, st) == {};
      SkipStaysWithin(edges, st, st, t, X);
      assert v !in NewlySkipped(st, st');
    }
    assert st'[e.source] == Completed;
  }

  /** What holds after every round: the list has no repetition and all of it can still start. */
  ghost predicate Sound(edges: seq<Edge>, st0: States, r: Evaluation) {
    && OnlySkips(st0, r.states)
    && Settled(edges, st0, r.states, {})
    && NoDuplicates(r.ready)
    && (forall v :: v in r.ready ==> IsPending(r.states, v) && IsReady(edges, r.states, v))
  }

  lemma ConsiderIsSound(edges: seq<Edge>, st0: States, r: Evaluation, e: Edge, passes: Edge -> bool)
    requires Sound(edges, st0, r) && e.target !in r.ready
    ensures Sound(edges, st0, Consider(edges, r, e, passes))
  {
    if IsPending(r.states, e.target) && HasCondition(e) && !passes(e) {
      forall v | v in r.ready
        ensures IsPending(Skip(edges, r.states, e.target), v) && IsReady(edges, Skip(edges, r.states, e.target), v)
      {
        SkipSpares(edges, r.states, e.target, v);
      }
      assert Settled(edges, st0, r.states, {} + {e.target});
      SkipSettles(edges, st0, r.states, e.target, {});
    }
  }

  lemma {:induction false} ConsiderAllIsSound(
    edges: seq<Edge>, st0: States, outgoing: seq<Edge>, passes: Edge -> bool)
    requires forall i, j :: 0 <= i < j < |outgoing| ==> outgoing[i].target != outgoing[j].target
    ensures var r := ConsiderAll(edges, Evaluation(st0, []), outgoing, passes);
            Sound(edges, st0, r) && forall v :: v in r.ready ==> exists e :: e in outgoing && e.target == v
    decreases |outgoing|
  {
    if outgoing != [] {
      var before, e := outgoing[..|outgoing| - 1], outgoing[|outgoing| - 1];
      ConsiderAllIsSound(edges, st0, before, passes);
      assert forall x :: x in outgoing <==> x in before || x == e;
      ConsiderIsSound(edges, st0, ConsiderAll(edges, Evaluation(st0, []), before, passes), e, passes);
    }
  }

  lemma {:induction false} OutgoingTargetsDiffer(edges: seq<Edge>, u: Id)
    requires UniquePairs(edges)
    ensures var out := Outgoing(edges, u);
            forall i, j :: 0 <= i < j < |out| ==> out[i].target != out[j].target
    decreases |edges|
  {
    if edges != [] {
      var rest := edges[1..];
      OutgoingTargetsDiffer(rest, u);
      FilterHolds(rest, (e: Edge) => e.source == u);
      var out, tail := Outgoing(edges, u), Outgoing(rest, u);
      forall e | e in tail ensures e.source == u && (edges[0].source == u ==> e.target != edges[0].target) {
        assert e in rest;
        var k :| 0 <= k < |rest| && rest[k] == e;
        assert edges[k + 1] == e;
      }
      forall i, j | 0 <= i < j < |out| ensures out[i].target != out[j].target {
        assert out == (if edges[0].source == u then [edges[0]] else []) + tail;
        assert edges[0].source == u ==> out[j] == tail[j - 1] && out[j] in tail;
      }
    }
  }

  // ----- What evaluateDownstream skips, told from its inputs -----

  /** The pending targets of the outgoing edges whose condition fails. */
  function FailedTargets(st: States, outgoing: seq<Edge>, passes: Edge -> bool): set<Id> {
    set e | e in outgoing && HasCondition(e) && !passes(e) && IsPending(st, e.target) :: e.target
  }

  /** The least set that holds `seeds` and every task forced by it: the meet of all closed sets that hold them. */
  ghost function MustSkip(edges: seq<Edge>, st: States, seeds: set<Id>): set<Id> {
    set v | v in PendingIds(st) && forall Y: set<Id> :: seeds <= Y && SkipClosed(edges, st, Y) ==> v in Y
  }

  lemma MustSkipIs(edges: seq<Edge>, st: States, seeds: set<Id>, X: set<Id>)
    requires seeds <= X <= PendingIds(st) && SkipClosed(edges, st, X)
    requires forall Y :: seeds <= Y && SkipClosed(edges, st, Y) ==> X <= Y
    ensures MustSkip(edges, st, seeds) == X
  {
  }

  ghost predicate HasSkipped(
    edges: seq<Edge>, st: States, outgoing: seq<Edge>, passes: Edge -> bool, now: States)
  {
    && OnlySkips(st, now) && Settled(edges, st, now, {})
    && FailedTargets(st, outgoing, passes) <= NewlySkipped(st, now)
    && forall Y :: FailedTargets(st, outgoing, passes) <= Y && SkipClosed(edges, st, Y) ==> NewlySkipped(st, now) <= Y
  }

  lemma SkipFailedTarget(
    edges: seq<Edge>, st: States, before: seq<Edge>, e: Edge, passes: Edge -> bool, now: States)
    requires HasSkipped(edges, st, before, passes, now)
    requires HasCondition(e) && !passes(e) && IsPending(now, e.target)
    ensures HasSkipped(edges, st, before + [e], passes, Skip(edges, now, e.target))
  {
    var t, later := e.target, Skip(edges, now, e.target);
    assert FailedTargets(st, before + [e], passes) == FailedTargets(st, before, passes) + {t};
    assert Settled(edges, st, now, {} + {t});
    SkipSettles(edges, st, now, t, {});
    SkipOnlySkips(edges, now, t);
    SkipMarks(edges, now, t);
    forall Y | FailedTargets(st, before + [e], passes) <= Y && SkipClosed(edges, st, Y)
      ensures NewlySkipped(st, later) <= Y
    {
      SkipStaysWithin(edges, st, now, t, Y);
    }
  }

  /** Every prefix of the loop has skipped the least set that its failing edges demand. */
  lemma {:induction false} LoopSkipsLeast(edges: seq<Edge>, st: States, outgoing: seq<Edge>, passes: Edge -> bool)
    ensures HasSkipped(edges, st, outgoing, passes, ConsiderAll(edges, Evaluation(st, []), outgoing, passes).states)
    decreases |outgoing|
  {
    if outgoing == [] {
      assert NewlySkipped(st, st) == {};
    } else {
      var before, e := outgoing[..|outgoing| - 1], outgoing[|outgoing| - 1];
      assert outgoing == before + [e];
      LoopSkipsLeast(edges, st, before, passes);
      var now := ConsiderAll(edges, Evaluation(st, []), before, passes).states;
      if IsPending(now, e.target) && HasCondition(e) && !passes(e) {
        SkipFailedTarget(edges, st, before, e, passes, now);
      } else {
        var old', new' := FailedTargets(st, before, passes), FailedTargets(st, outgoing, passes);
        assert old' <= new' <= old' + NewlySkipped(st, now);
      }
    }
  }

  /** The statuses after a prefix of the loop, told from its inputs: the least skipped set, and nothing else, has changed. */
  lemma StatesAfterLoop(edges: seq<Edge>, st: States, outgoing: seq<Edge>, passes: Edge -> bool)
    ensures var now := ConsiderAll(edges, Evaluation(st, []), outgoing, passes).states;
            && OnlySkips(st, now)
            && NewlySkipped(st, now) == MustSkip(edges, st, FailedTargets(st, outgoing, passes))
  {
    LoopSkipsLeast(edges, st, outgoing, passes);
    var now := ConsiderAll(edges, Evaluation(st, []), outgoing, passes).states;
    SettledIsClosed(edges, st, now);
    MustSkipIs(edges, st, FailedTargets(st, outgoing, passes), NewlySkipped(st, now));
  }

  /** Ready, counting the tasks of X as skipped: every upstream completed, skipped or in X, and one of them completed. */
  ghost predicate IsReadyGiven(edges: seq<Edge>, st: States, X: set<Id>, v: Id) {
    && (forall e :: e in edges && e.target == v ==>
          e.source in st && (st[e.source] == Completed || st[e.source] == Skipped || e.source in X))
    && (exists e :: e in edges && e.target == v && e.source in st && st[e.source] == Completed)
  }

  lemma ReadyAfterSkips(edges: seq<Edge>, st: States, now: States, v: Id)
    requires OnlySkips(st, now)
    ensures IsReady(edges, now, v) <==> IsReadyGiven(edges, st, NewlySkipped(st, now), v)
    ensures IsPending(now, v) <==> IsPending(st, v) && v !in NewlySkipped(st, now)
  {
  }

  /**
   What the caller may rely on at return: the list has no duplicates; each listed task is still
   pending, has all upstreams completed or skipped and one of them completed; and the tasks
   skipped in this call are exactly the least set that the failing edges demand.
   */
  lemma EvaluationIsSound(edges: seq<Edge>, st: States, u: Id, passes: Edge -> bool)
    requires UniquePairs(edges)
    ensures var r := Evaluate(edges, st, u, passes);
            && NoDuplicates(r.ready)
            && (forall v :: v in r.ready ==> (u, v) in Arcs(edges))
            && (forall v :: v in r.ready ==> IsPending(r.states, v) && IsReady(edges, r.states, v))
            && (forall v :: v in r.ready ==> v !in NewlySkipped(st, r.states))
            && OnlySkips(st, r.states) && SkipClosed(edges, st, NewlySkipped(st, r.states))
            && NewlySkipped(st, r.states) == MustSkip(edges, st, FailedTargets(st, Outgoing(edges, u), passes))
  {
    StatesAfterLoop(edges, st, Outgoing(edges, u), passes);
    OutgoingTargetsDiffer(edges, u);
    ConsiderAllIsSound(edges, st, Outgoing(edges, u), passes);
    FilterHolds(edges, (e: Edge) => e.source == u);
    SettledIsClosed(edges, st, Evaluate(edges, st, u, passes).states);
  }

  /** Without conditions nothing is skipped, and exactly the ready successors are listed, in edge order. */
  lemma UnconditionalEvaluationIsExact(edges: seq<Edge>, st: States, u: Id, passes: Edge -> bool)
    requires forall e :: e in edges ==> !HasCondition(e)
    ensures Evaluate(edges, st, u, passes) ==
            Evaluation(st, Filter(Targets(edges, u), v => IsPending(st, v) && IsReady(edges, st, v)))
  {
    FilterHolds(edges, (e: Edge) => e.source == u);
    ConsiderUnconditional(edges, st, Outgoing(edges, u), passes);
    var out := Outgoing(edges, u);
    OutgoingAreTargets(edges, u);
  }

  lemma {:induction false} ConsiderUnconditional(
    edges: seq<Edge>, st: States, outgoing: seq<Edge>, passes: Edge -> bool)
    requires forall e :: e in outgoing ==> !HasCondition(e)
    ensures ConsiderAll(edges, Evaluation(st, []), outgoing, passes) ==
            Evaluation(st, Filter(Heads(outgoing), v => IsPending(st, v) && IsReady(edges, st, v)))
    decreases |outgoing|
  {
    var ok := v => IsPending(st, v) && IsReady(edges, st, v);
    if outgoing != [] {
      var before, e := outgoing[..|outgoing| - 1], outgoing[|outgoing| - 1];
      assert e in outgoing && forall x :: x in before ==> x in outgoing;
      ConsiderUnconditional(edges, st, before, passes);
      assert outgoing == before + [e];
      HeadsSnoc(before, e);
      FilterSnoc(Heads(before), e.target, ok);
    }
  }

  function Heads(edges: seq<Edge>): seq<Id> {
    seq(|edges|, i requires 0 <= i < |edges| => edges[i].target)
  }

  lemma HeadsSnoc(edges: seq<Edge>, e: Edge)
    ensures Heads(edges + [e]) == Heads(edges) + [e.target]
  {
  }

  lemma {:induction false} OutgoingAreTargets(edges: seq<Edge>, u: Id)
    ensures Heads(Outgoing(edges, u)) == Targets(edges, u)
    decreases |edges|
  {
    if edges != [] {
      OutgoingAreTargets(edges[1..], u);
    }
  }

  // ----- With conditions a join can be missed -----

  lemma {:induction false} NothingOutgoing(edges: seq<Edge>, u: Id)
    requires forall e :: e in edges ==> e.source != u
    ensures Outgoing(edges, u) == []
    decreases |edges|
  {
    if edges != [] {
      assert edges[0] in edges;
      NothingOutgoing(edges[1..], u);
    }
  }

  lemma OthersListNothing(edges: seq<Edge>, a: Id, c: Id, passes: Edge -> bool)
    requires forall e :: e in edges ==> e.source == a || e.source == c
    ensures forall u, st :: u != a && u != c ==> Evaluate(edges, st, u, passes).ready == []
  {
    forall u, st | u != a && u != c ensures Evaluate(edges, st, u, passes).ready == [] {
      NothingOutgoing(edges, u);
    }
  }

  ghost predicate IsLateJoin(edges: seq<Edge>, a: Id, b: Id, c: Id, passes: Edge -> bool) {
    && a != b && b != c && a != c && |edges| == 3
    && edges[0].source == a && edges[0].target == b && !HasCondition(edges[0])
    && edges[1].source == a && edges[1].target == c && HasCondition(edges[1]) && !passes(edges[1])
    && edges[2].source == c && edges[2].target == b
  }

  lemma JoinWaits(edges: seq<Edge>, st: States, a: Id, b: Id, c: Id, passes: Edge -> bool)
    requires IsLateJoin(edges, a, b, c, passes)
    requires a in st && st[a] == Completed && IsPending(st, b) && IsPending(st, c)
    ensures !IsReady(edges, st, b) && SkipClosed(edges, st, {c})
    ensures edges[0] in edges && edges[1] in edges && edges[2] in edges
  {
    assert edges[0] in edges && edges[1] in edges && edges[2] in edges;
  }

  /**
   Edges a -> b, a -> c with a failing condition, c -> b, and a just completed. When b is
   considered, c is still pending; c is skipped later in the same call, and b, now ready, is not
   listed. Evaluating any task but a and c, in whatever state, lists nothing.
   */
  lemma JoinMayBeMissed(edges: seq<Edge>, st: States, a: Id, b: Id, c: Id, passes: Edge -> bool)
    requires IsLateJoin(edges, a, b, c, passes)
    requires a in st && st[a] == Completed && IsPending(st, b) && IsPending(st, c)
    ensures var r := Evaluate(edges, st, a, passes);
            r.ready == [] && IsPending(r.states, b) && IsReady(edges, r.states, b) && r.states[c] == Skipped
    ensures forall u, st' :: u != a && u != c ==> Evaluate(edges, st', u, passes).ready == []
  {
    JoinWaits(edges, st, a, b, c, passes);
    JoinTrace(edges, st, a, passes);
    OnlyOneSkipped(edges, st, b, c);
    OthersListNothing(edges, a, c, passes);
  }

  lemma JoinTrace(edges: seq<Edge>, st: States, a: Id, passes: Edge -> bool)
    requires |edges| == 3 && edges[0].source == edges[1].source == a && edges[2].source != a
    requires !HasCondition(edges[0]) && !IsReady(edges, st, edges[0].target)
    ensures Evaluate(edges, st, a, passes) == Consider(edges, Evaluation(st, []), edges[1], passes)
  {
    var isOut := (e: Edge) => e.source == a;
    var rest := edges[1..];
    assert rest[1..][1..] == [] && Filter(rest[1..], isOut) == [];
    assert Filter(rest, isOut) == [edges[1]];
    var out := [edges[0], edges[1]];
    assert Outgoing(edges, a) == out;
    assert out[..1] == [edges[0]] && out[..1][..0] == [];
    assert ConsiderAll(edges, Evaluation(st, []), out[..1], passes) == Evaluation(st, []);
  }

  /** Skipping c leaves b alone when b is not forced by c. */
  lemma OnlyOneSkipped(edges: seq<Edge>, st: States, b: Id, c: Id)
    requires b != c && IsPending(st, b) && IsPending(st, c) && SkipClosed(edges, st, {c})
    ensures var r := Skip(edges, st, c); OnlySkips(st, r) && r[b] == Pending && r[c] == Skipped
  {
    SkipOnlySkips(edges, st, c);
    SkipMarks(edges, st, c);
    assert NewlySkipped(st, st) == {};
    SkipStaysWithin(edges, st, st, c, {c});
    assert b !in NewlySkipped(st, Skip(edges, st, c));
  }

  lemma SkipMarks(edges: seq<Edge>, st: States, t: Id)
    requires IsPending(st, t)
    ensures Skip(edges, st, t)[t] == Skipped
  {
    SkipEachOnlySkips(edges, st[t := Skipped], Targets(edges, t));
  }

  lemma {:induction false} LaterRoundsOnlySkip(
    edges: seq<Edge>, st: States, outgoing: seq<Edge>, passes: Edge -> bool, k: nat)
    requires k <= |outgoing|
    ensures var r, end := ConsiderAll(edges, Evaluation(st, []), outgoing[..k], passes),
                          ConsiderAll(edges, Evaluation(st, []), outgoing, passes);
            && OnlySkips(r.states, end.states)
            && (forall v :: v in r.ready ==> v in end.ready)
            && (forall v :: v in end.ready ==> v in r.ready || exists e :: e in outgoing[k..] && e.target == v)
    decreases |outgoing|
  {
    if k == |outgoing| {
      assert outgoing[..k] == outgoing;
    } else {
      var before, e := outgoing[..|outgoing| - 1], outgoing[|outgoing| - 1];
      LaterRoundsOnlySkip(edges, st, before, passes, k);
      assert before[..k] == outgoing[..k] && outgoing[k..] == before[k..] + [e];
      SkipOnlySkips(edges, ConsiderAll(edges, Evaluation(st, []), before, passes).states, e.target);
    }
  }

  lemma ListedWhenConsidered(edges: seq<Edge>, st: States, u: Id, passes: Edge -> bool, k: nat)
    requires UniquePairs(edges) && k < |Outgoing(edges, u)|
    requires var e := Outgoing(edges, u)[k]; !HasCondition(e) || passes(e)
    ensures var v, r := Outgoing(edges, u)[k].target, Evaluate(edges, st, u, passes);
            var seen := ConsiderAll(edges, Evaluation(st, []), Outgoing(edges, u)[..k], passes).states;
            v in r.ready <==> IsPending(seen, v) && IsReady(edges, seen, v)
  {
    var out := Outgoing(edges, u);
    var e, v, r := out[k], out[k].target, Evaluate(edges, st, u, passes);
    var first := ConsiderAll(edges, Evaluation(st, []), out[..k], passes);
    OutgoingTargetsDiffer(edges, u);
    ConsiderAllIsSound(edges, st, out[..k], passes);
    LaterRoundsOnlySkip(edges, st, out, passes, k + 1);
    assert out[..k + 1][..k] == out[..k];
    forall x | x in out[..k] ensures x.target != v {
      var j :| 0 <= j < k && out[..k][j] == x;
    }
    forall x | x in out[k + 1..] ensures x.target != v {
      var j :| 0 <= j < |out| - k - 1 && out[k + 1..][j] == x;
    }
  }

  /**
   Told before the call: the target v of the k-th outgoing edge, whose condition does not fail, is
   listed exactly when v is pending, not in the least set X that the failing edges before it
   demand, and ready counting X as skipped. It is pending and ready at return but not listed, so
   that the join is missed, exactly when the set Z of all failing edges leaves it out and makes it
   ready, and X does not.
   */
  lemma ReadyIsListedExactly(edges: seq<Edge>, st: States, u: Id, passes: Edge -> bool, k: nat)
    requires UniquePairs(edges) && k < |Outgoing(edges, u)|
    requires var e := Outgoing(edges, u)[k]; !HasCondition(e) || passes(e)
    ensures var v, r := Outgoing(edges, u)[k].target, Evaluate(edges, st, u, passes);
            var X := MustSkip(edges, st, FailedTargets(st, Outgoing(edges, u)[..k], passes));
            var Z := MustSkip(edges, st, FailedTargets(st, Outgoing(edges, u), passes));
            && (v in r.ready <==> IsPending(st, v) && v !in X && IsReadyGiven(edges, st, X, v))
            && (IsPending(r.states, v) && IsReady(edges, r.states, v) && v !in r.ready <==>
                  IsPending(st, v) && v !in Z && IsReadyGiven(edges, st, Z, v) && !IsReadyGiven(edges, st, X, v))
  {
    var out := Outgoing(edges, u);
    var v := out[k].target;
    var seen, end := ConsiderAll(edges, Evaluation(st, []), out[..k], passes).states, Evaluate(edges, st, u, passes).states;
    ListedWhenConsidered(edges, st, u, passes, k);
    LaterRoundsOnlySkip(edges, st, out, passes, k);
    StatesAfterLoop(edges, st, out[..k], passes);
    StatesAfterLoop(edges, st, out, passes);
    ReadyAfterSkips(edges, st, seen, v);
    ReadyAfterSkips(edges, st, end, v);
  }

  /**
   A task v that no outgoing edge of u points to is never listed; it is pending and ready at return
   exactly when the set Z of all failing edges leaves it out and makes it ready.
   */
  lemma OthersAreNeverListed(edges: seq<Edge>, st: States, u: Id, passes: Edge -> bool, v: Id)
    requires forall e :: e in Outgoing(edges, u) ==> e.target != v
    ensures var r := Evaluate(edges, st, u, passes);
            var Z := MustSkip(edges, st, FailedTargets(st, Outgoing(edges, u), passes));
            && v !in r.ready
            && (IsPending(r.states, v) && IsReady(edges, r.states, v) <==>
                  IsPending(st, v) && v !in Z && IsReadyGiven(edges, st, Z, v))
  {
    var out := Outgoing(edges, u);
    LaterRoundsOnlySkip(edges, st, out, passes, 0);
    StatesAfterLoop(edges, st, out, passes);
    ReadyAfterSkips(edges, st, Evaluate(edges, st, u, passes).states, v);
  }

  /** The edges d -> b, a -> c with a failing condition, and c -> b. */
  ghost predicate IsOtherJoin(edges: seq<Edge>, a: Id, b: Id, c: Id, d: Id, passes: Edge -> bool) {
    && a != b && a != c && a != d && b != c && b != d && c != d && |edges| == 3
    && edges[0].source == d && edges[0].target == b && !HasCondition(edges[0])
    && edges[1].source == a && edges[1].target == c && HasCondition(edges[1]) && !passes(edges[1])
    && edges[2].source == c && edges[2].target == b
  }

  lemma OutgoingUnfolds(edges: seq<Edge>, u: Id)
    requires edges != []
    ensures Outgoing(edges, u) == (if edges[0].source == u then [edges[0]] else []) + Outgoing(edges[1..], u)
  {
  }

  lemma OtherJoinOutgoing(edges: seq<Edge>, a: Id, b: Id, c: Id, d: Id, u: Id, passes: Edge -> bool)
    requires IsOtherJoin(edges, a, b, c, d, passes) && u != c
    ensures Outgoing(edges, u) == if u == a then [edges[1]] else if u == d then [edges[0]] else []
  {
    var rest := edges[1..];
    OutgoingUnfolds(edges, u);
    OutgoingUnfolds(rest, u);
    NothingOutgoing(rest[1..], u);
  }

  lemma OtherJoinWaits(edges: seq<Edge>, st: States, a: Id, b: Id, c: Id, d: Id, passes: Edge -> bool)
    requires IsOtherJoin(edges, a, b, c, d, passes)
    requires d in st && st[d] == Completed && IsPending(st, b) && IsPending(st, c)
    ensures !IsReady(edges, st, b) && SkipClosed(edges, st, {c})
    ensures edges[0] in edges && edges[1] in edges && edges[2] in edges
  {
    assert edges[0] in edges && edges[1] in edges && edges[2] in edges;
  }

  lemma OtherJoinTrace(edges: seq<Edge>, st: States, a: Id, b: Id, c: Id, d: Id, passes: Edge -> bool)
    requires IsOtherJoin(edges, a, b, c, d, passes)
    requires IsPending(st, b) && IsPending(st, c) && !IsReady(edges, st, b)
    ensures Evaluate(edges, st, a, passes) == Evaluation(Skip(edges, st, c), [])
    ensures Evaluate(edges, st, d, passes) == Evaluation(st, [])
  {
    OtherJoinOutgoing(edges, a, b, c, d, a, passes);
    OtherJoinOutgoing(edges, a, b, c, d, d, passes);
    assert [edges[0]][..0] == [] && [edges[1]][..0] == [];
    assert ConsiderAll(edges, Evaluation(st, []), [edges[1]], passes) == Consider(edges, Evaluation(st, []), edges[1], passes);
    assert ConsiderAll(edges, Evaluation(st, []), [edges[0]], passes) == Consider(edges, Evaluation(st, []), edges[0], passes);
  }

  /**
   With a and d completed and b and c pending, b is not ready. Evaluating a, whose only edge fails,
   skips c and so makes b ready, but b is not a successor of a. Evaluating d before that lists
   nothing either, and no other task but c leads to b.
   */
  lemma OtherJoinMayBeMissed(edges: seq<Edge>, st: States, a: Id, b: Id, c: Id, d: Id, passes: Edge -> bool)
    requires IsOtherJoin(edges, a, b, c, d, passes)
    requires a in st && st[a] == Completed && d in st && st[d] == Completed && IsPending(st, b) && IsPending(st, c)
    ensures !IsReady(edges, st, b) && Evaluate(edges, st, d, passes).ready == []
    ensures var r := Evaluate(edges, st, a, passes);
            r.ready == [] && IsPending(r.states, b) && IsReady(edges, r.states, b) && r.states[c] == Skipped
    ensures forall u, st' :: u != c && u != d ==> b !in Evaluate(edges, st', u, passes).ready
  {
    OtherJoinWaits(edges, st, a, b, c, d, passes);
    OtherJoinTrace(edges, st, a, b, c, d, passes);
    OnlyOneSkipped(edges, st, b, c);
    forall u, st' | u != c && u != d ensures b !in Evaluate(edges, st', u, passes).ready {
      OtherJoinOutgoing(edges, a, b, c, d, u, passes);
      OthersAreNeverListed(edges, st', u, passes, b);
    }
  }

  /** When the edges with failing conditions come first, exactly those successors that are ready at return are listed. */
  lemma FailuresFirstIsExact(
    edges: seq<Edge>, st: States, u: Id, passes: Edge -> bool, failing: seq<Edge>, passing: seq<Edge>)
    requires Outgoing(edges, u) == failing + passing
    requires forall e :: e in failing ==> HasCondition(e) && !passes(e)
    requires forall e :: e in passing ==> !HasCondition(e) || passes(e)
    ensures var r := Evaluate(edges, st, u, passes);
            r.ready == Filter(Heads(passing), v => IsPending(r.states, v) && IsReady(edges, r.states, v))
  {
    ConsiderFailing(edges, st, failing, passes);
    ConsiderPassing(edges, st, failing, passing, passes);
  }

  lemma {:induction false} ConsiderPassing(
    edges: seq<Edge>, st: States, failing: seq<Edge>, passing: seq<Edge>, passes: Edge -> bool)
    requires forall e :: e in passing ==> !HasCondition(e) || passes(e)
    requires ConsiderAll(edges, Evaluation(st, []), failing, passes).ready == []
    ensures var first := ConsiderAll(edges, Evaluation(st, []), failing, passes).states;
            ConsiderAll(edges, Evaluation(st, []), failing + passing, passes) ==
            Evaluation(first, Filter(Heads(passing), v => IsPending(first, v) && IsReady(edges, first, v)))
    decreases |passing|
  {
    var first := ConsiderAll(edges, Evaluation(st, []), failing, passes).states;
    var out := failing + passing;
    if passing == [] {
      assert out == failing;
    } else {
      var before, e := passing[..|passing| - 1], passing[|passing| - 1];
      assert e in passing && forall x :: x in before ==> x in passing;
      assert out[..|out| - 1] == failing + before && out[|out| - 1] == e && passing == before + [e];
      ConsiderPassing(edges, st, failing, before, passes);
      HeadsSnoc(before, e);
      FilterSnoc(Heads(before), e.target, v => IsPending(first, v) && IsReady(edges, first, v));
    }
  }

  lemma {:induction false} ConsiderFailing(edges: seq<Edge>, st: States, out: seq<Edge>, passes: Edge -> bool)
    requires forall e :: e in out ==> HasCondition(e) && !passes(e)
    ensures ConsiderAll(edges, Evaluation(st, []), out, passes).ready == []
    decreases |out|
  {
    if out != [] {
      assert out[|out| - 1] in out;
      ConsiderFailing(edges, st, out[..|out| - 1], passes);
    }
  }

  // ----- The same told from the fields of edges and the statuses alone -----

  /** A non-empty condition that does not pass skips its target, which is not listed. */
  lemma FailingEdgesSkip(edges: seq<Edge>, st: States, u: Id, passes: Edge -> bool, e: Edge)
    requires e in edges && e.source == u && e.target in st && st[e.target] == Pending
    requires e.conditionExpr.Some? && e.conditionExpr.value != "" && !passes(e)
    ensures var r := Evaluate(edges, st, u, passes);
            && e.target in r.states && r.states[e.target] == Skipped
            && (UniquePairs(edges) ==> e.target !in r.ready)
  {
    FilterHolds(edges, (x: Edge) => x.source == u);
    LoopSkipsLeast(edges, st, Outgoing(edges, u), passes);
    assert e.target in FailedTargets(st, Outgoing(edges, u), passes);
    if UniquePairs(edges) {
      EvaluationIsSound(edges, st, u, passes);
    }
  }

  /** No condition, an empty one, or one that passes: nothing is skipped. */
  lemma OnlyFailingEdgesSkip(edges: seq<Edge>, st: States, u: Id, passes: Edge -> bool)
    requires forall e :: e in edges && e.source == u ==>
               e.conditionExpr == None || e.conditionExpr == Some("") || passes(e)
               || e.target !in st || st[e.target] != Pending
    ensures Evaluate(edges, st, u, passes).states == st
  {
    var out := Outgoing(edges, u);
    FilterHolds(edges, (x: Edge) => x.source == u);
    LoopSkipsLeast(edges, st, out, passes);
    forall e | e in out ensures !(HasCondition(e) && !passes(e) && IsPending(st, e.target)) {
      assert e in edges && e.source == u;
    }
    assert SkipClosed(edges, st, {});
    var now := Evaluate(edges, st, u, passes).states;
    assert FailedTargets(st, out, passes) == {} && NewlySkipped(st, now) == {};
    forall v | v in st ensures v in now && now[v] == st[v] {
      assert v !in NewlySkipped(st, now);
    }
  }

  /** An edge into v from a task that is skipped now and was not before. */
  ghost predicate LosesUpstream(edges: seq<Edge>, st: States, now: States, v: Id) {
    exists e :: e in edges && e.target == v && e.source in st && e.source in now
                && st[e.source] == Pending && now[e.source] == Skipped
  }

  lemma SkippedOrForced(edges: seq<Edge>, st: States, F: set<Id>, X: set<Id>, v: Id)
    requires v in X && F <= X && SkipClosed(edges, st, X)
    requires forall Y :: F <= Y && SkipClosed(edges, st, Y) ==> X <= Y
    ensures v in F || Forced(edges, st, X, v)
  {
    if v !in F && !Forced(edges, st, X, v) {
      var Y := X - {v};
      assert SkipClosed(edges, st, Y) by {
        forall x | Forced(edges, st, Y, x) ensures x in Y {
          assert Forced(edges, st, X, x);
        }
      }
    }
  }

  /**
   Why a task is skipped: the condition of an edge from u fails, or some upstream has been skipped
   and all of them have ended without success.
   */
  lemma SkippedForAReason(edges: seq<Edge>, st: States, u: Id, passes: Edge -> bool, v: Id)
    requires v in st && st[v] == Pending && v in Evaluate(edges, st, u, passes).states
    requires Evaluate(edges, st, u, passes).states[v] == Skipped
    ensures var now := Evaluate(edges, st, u, passes).states;
            || (exists e :: e in edges && e.source == u && e.target == v
                            && e.conditionExpr.Some? && e.conditionExpr.value != "" && !passes(e))
            || (LosesUpstream(edges, st, now, v)
                && forall e :: e in edges && e.target == v ==>
                     e.source in now && now[e.source] in {Skipped, Failed, Cancelled, TimedOut})
  {
    var out, now := Outgoing(edges, u), Evaluate(edges, st, u, passes).states;
    FilterHolds(edges, (x: Edge) => x.source == u);
    LoopSkipsLeast(edges, st, out, passes);
    SettledIsClosed(edges, st, now);
    SkippedOrForced(edges, st, FailedTargets(st, out, passes), NewlySkipped(st, now), v);
  }

  /** And a task is not left pending below a skip when all its upstreams have ended without success. */
  lemma SkipsAreComplete(edges: seq<Edge>, st: States, u: Id, passes: Edge -> bool, v: Id)
    requires var now := Evaluate(edges, st, u, passes).states;
             v in now && now[v] == Pending && LosesUpstream(edges, st, now, v)
    ensures var now := Evaluate(edges, st, u, passes).states;
            exists e :: e in edges && e.target == v
                        && (e.source !in now || now[e.source] !in {Skipped, Failed, Cancelled, TimedOut})
  {
    var now := Evaluate(edges, st, u, passes).states;
    LoopSkipsLeast(edges, st, Outgoing(edges, u), passes);
    SettledIsClosed(edges, st, now);
    var X := NewlySkipped(st, now);
    assert !Forced(edges, st, X, v);
    assert exists e :: e in edges && e.target == v && e.source in X;
    var e :| e in edges && e.target == v && !(e.source in st && (IsDead(st[e.source]) || e.source in X));
  }

  /** What is listed has an edge from u, and is still pending with every upstream completed or skipped and one completed. */
  lemma ListedIsReady(edges: seq<Edge>, st: States, u: Id, passes: Edge -> bool, v: Id)
    requires UniquePairs(edges) && v in Evaluate(edges, st, u, passes).ready
    ensures var now := Evaluate(edges, st, u, passes).states;
            && v in now && now[v] == Pending && (exists e :: e in edges && e.source == u && e.target == v)
            && (forall e :: e in edges && e.target == v ==> e.source in now && now[e.source] in {Completed, Skipped})
            && (exists e :: e in edges && e.target == v && e.source in now && now[e.source] == Completed)
  {
    EvaluationIsSound(edges, st, u, passes);
  }

  /** A pending successor whose upstreams were completed or skipped before, one of them completed, is listed. */
  lemma ReadyBeforeIsListed(edges: seq<Edge>, st: States, u: Id, passes: Edge -> bool, e: Edge)
    requires UniquePairs(edges) && e in edges && e.source == u && e.target in st && st[e.target] == Pending
    requires e.conditionExpr == None || e.conditionExpr == Some("") || passes(e)
    requires forall x :: x in edges && x.target == e.target ==> x.source in st && st[x.source] in {Completed, Skipped}
    requires exists x :: x in edges && x.target == e.target && x.source in st && st[x.source] == Completed
    ensures e.target in Evaluate(edges, st, u, passes).ready
  {
    var out := Outgoing(edges, u);
    FilterHolds(edges, (x: Edge) => x.source == u);
    var k :| 0 <= k < |out| && out[k] == e;
    ReadyIsListedExactly(edges, st, u, passes, k);
    ReadyStaysPending(edges, st, out[..k], passes, e.target);
    OutgoingTargetsDiffer(edges, u);
  }

  lemma ReadyStaysPending(edges: seq<Edge>, st: States, before: seq<Edge>, passes: Edge -> bool, v: Id)
    requires IsPending(st, v) && IsReady(edges, st, v)
    ensures var X := MustSkip(edges, st, FailedTargets(st, before, passes)); (v in X ==> exists x :: x in before && x.target == v)
    ensures var X := MustSkip(edges, st, FailedTargets(st, before, passes)); IsReadyGiven(edges, st, X, v)
  {
    var X := MustSkip(edges, st, FailedTargets(st, before, passes));
    StatesAfterLoop(edges, st, before, passes);
    LoopSkipsLeast(edges, st, before, passes);
    var now := ConsiderAll(edges, Evaluation(st, []), before, passes).states;
    SettledIsClosed(edges, st, now);
    if v in X {
      SkippedOrForced(edges, st, FailedTargets(st, before, passes), NewlySkipped(st, now), v);
    }
  }

  // ----- The code as written -----

  class TaskState {
    const id: Id
    const taskDefinitionId: Id
    const output: Option<string>
    var status: Status

    constructor (id: Id, taskDefinitionId: Id, status: Status, output: Option<string>)
      ensures this.id == id && this.taskDefinitionId == taskDefinitionId
      ensures this.status == status && this.output == output
    {
      this.id, this.taskDefinitionId, this.status, this.output := id, taskDefinitionId, status, output;
    }
  }

  /** Every state is filed under its own definition id, so no object is filed twice. */
  ghost predicate Filed(byDefId: map<Id, TaskState>) {
    forall k :: k in byDefId ==> byDefId[k].taskDefinitionId == k
  }

  ghost function Statuses(byDefId: map<Id, TaskState>): States
    reads byDefId.Values
  {
    map k | k in byDefId :: byDefId[k].status
  }

  class FanOut {
    const taskQueue: TaskQueue
    /** What the event bus was asked to publish: (task state id, execution id). */
    var published: seq<(Id, Id)>
    /** Stands for `new Function('output', ...)`; a throwing expression counts as false. */
    const holds: (string, string) -> bool

    constructor (taskQueue: TaskQueue, holds: (string, string) -> bool)
      ensures this.taskQueue == taskQueue && this.holds == holds && published == []
    {
      this.taskQueue, this.holds := taskQueue, holds;
      published := [];
    }

    function EvaluateCondition(expression: string, output: Option<string>): bool {
      output.Some? && holds(expression, output.value)
    }

    /** The condition of an edge under the output of the completed task. */
    ghost function Passes(output: Option<string>): Edge -> bool {
      (e: Edge) => e.conditionExpr.Some? && EvaluateCondition(e.conditionExpr.value, output)
    }

    method MarkSkipped(taskDefId: Id, edges: seq<Edge>, byDefId: map<Id, TaskState>)
      requires Filed(byDefId)
      modifies byDefId.Values
      ensures Statuses(byDefId) == Skip(edges, old(Statuses(byDefId)), taskDefId)
      decreases PendingIds(Statuses(byDefId))
    {
      if taskDefId in byDefId && byDefId[taskDefId].status == Pending {
        ghost var st := Statuses(byDefId);
        byDefId[taskDefId].status := Skipped;
        ghost var marked := Statuses(byDefId);
        assert marked == st[taskDefId := Skipped];
        assert PendingIds(marked) == PendingIds(st) - {taskDefId};
        var downstream := Targets(edges, taskDefId);
        for i := 0 to |downstream|
          invariant PendingIds(Statuses(byDefId)) <= PendingIds(marked)
          invariant SkipEach(edges, marked, downstream) == SkipEach(edges, Statuses(byDefId), downstream[i..])
        {
          assert downstream[i..][1..] == downstream[i + 1..];
          var allSkippedOrConditionFalse :=
            forall e | e in edges :: e.target == downstream[i] ==>
              e.source in byDefId && IsDead(byDefId[e.source].status);
          assert allSkippedOrConditionFalse == AllUpstreamDead(edges, Statuses(byDefId), downstream[i]);
          if allSkippedOrConditionFalse {
            MarkSkipped(downstream[i], edges, byDefId);
          }
        }
      }
    }

    /** The fan-in check: every upstream satisfied, and at least one of them completed. */
    method FanInSatisfied(target: Id, edges: seq<Edge>, byDefId: map<Id, TaskState>) returns (ready: bool)
      ensures ready == IsReady(edges, Statuses(byDefId), target)
    {
      var allSatisfied := forall e | e in edges :: e.target == target ==>
        e.source in byDefId && byDefId[e.source].status in {Completed, Skipped};
      var atLeastOneCompleted := exists e | e in edges ::
        e.target == target && e.source in byDefId && byDefId[e.source].status == Completed;
      ready := allSatisfied && atLeastOneCompleted;
    }

    /** The body of the loop over the outgoing edges; the result is the task state id to enqueue. */
    method ConsiderEdge(edge: Edge, edges: seq<Edge>, byDefId: map<Id, TaskState>, output: Option<string>)
      returns (ready: Option<Id>)
      requires Filed(byDefId)
      modifies byDefId.Values
      ensures var r := Consider(edges, Evaluation(old(Statuses(byDefId)), []), edge, Passes(output));
              && Statuses(byDefId) == r.states
              && (if r.ready == [] then ready == None else
                    r.ready == [edge.target] && edge.target in byDefId && ready == Some(byDefId[edge.target].id))
    {
      ready := None;
      if edge.target in byDefId && byDefId[edge.target].status == Pending {
        if HasCondition(edge) && !EvaluateCondition(edge.conditionExpr.value, output) {
          MarkSkipped(edge.target, edges, byDefId);
        } else {
          var satisfied := FanInSatisfied(edge.target, edges, byDefId);
          if satisfied {
            ready := Some(byDefId[edge.target].id);
          }
        }
      }
    }

    method ConsiderOutgoing(outgoing: seq<Edge>, edges: seq<Edge>, byDefId: map<Id, TaskState>, output: Option<string>)
      returns (ids: seq<Id>)
      requires Filed(byDefId)
      modifies byDefId.Values
      ensures var r := ConsiderAll(edges, Evaluation(old(Statuses(byDefId)), []), outgoing, Passes(output));
              Statuses(byDefId) == r.states && AreIdsOf(byDefId, r.ready, ids)
    {
      ghost var start := Evaluation(Statuses(byDefId), []);
      ids := [];
      for i := 0 to |outgoing|
        invariant var r := ConsiderAll(edges, start, outgoing[..i], Passes(output));
                  Statuses(byDefId) == r.states && AreIdsOf(byDefId, r.ready, ids)
      {
        assert outgoing[..i + 1][..i] == outgoing[..i];
        ConsiderAppends(edges, ConsiderAll(edges, start, outgoing[..i], Passes(output)), outgoing[i], Passes(output));
        var ready := ConsiderEdge(outgoing[i], edges, byDefId, output);
        if ready.Some? {
          ids := ids + [ready.value];
        }
      }
      assert outgoing[..|outgoing|] == outgoing;
    }

    /**
     What the conditions of the edges from u do to the statuses: a non-empty one skips its pending
     target if there is no output or it does not hold on it; if none does so, nothing is skipped.
     */
    ghost predicate SkipsByConditions(edges: seq<Edge>, u: Id, output: Option<string>, before: States, after: States) {
      && (forall e :: (e in edges && e.source == u && e.target in before && before[e.target] == Pending
                       && e.conditionExpr.Some? && e.conditionExpr.value != ""
                       && (output.None? || !holds(e.conditionExpr.value, output.value))) ==>
            e.target in after && after[e.target] == Skipped)
      && ((forall e :: (e in edges && e.source == u && e.conditionExpr.Some? && e.conditionExpr.value != "") ==>
             output.Some? && holds(e.conditionExpr.value, output.value)) ==>
            after == before)
    }

    lemma ConditionsDecide(edges: seq<Edge>, st: States, u: Id, output: Option<string>)
      ensures SkipsByConditions(edges, u, output, st, Evaluate(edges, st, u, Passes(output)).states)
    {
      var passes := Passes(output);
      forall e | e in edges && e.source == u && e.target in st && st[e.target] == Pending
                 && e.conditionExpr.Some? && e.conditionExpr.value != "" && !passes(e)
        ensures var now := Evaluate(edges, st, u, passes).states; e.target in now && now[e.target] == Skipped
      {
        FailingEdgesSkip(edges, st, u, passes, e);
      }
      if forall e :: (e in edges && e.source == u && e.conditionExpr.Some? && e.conditionExpr.value != "") ==> passes(e) {
        OnlyFailingEdgesSkip(edges, st, u, passes);
      }
    }

    /** A state that is not pending at return is not listed. */
    lemma OnlyPendingIsListed(edges: seq<Edge>, st: States, u: Id, passes: Edge -> bool, byDefId: map<Id, TaskState>, ids: seq<Id>)
      requires UniquePairs(edges) && IdsDiffer(byDefId) && AreIdsOf(byDefId, Evaluate(edges, st, u, passes).ready, ids)
      ensures var now := Evaluate(edges, st, u, passes).states;
              forall k :: k in byDefId && !IsPending(now, k) ==> byDefId[k].id !in ids
    {
      EvaluationIsSound(edges, st, u, passes);
    }

    /**
     From the statuses before to those after, with the ids that are returned: what `Evaluate` says;
     what the conditions demand; and only pending states are listed.
     */
    ghost predicate IsOutcome(edges: seq<Edge>, u: Id, output: Option<string>, byDefId: map<Id, TaskState>,
                              before: States, after: States, ids: seq<Id>)
    {
      var r := Evaluate(edges, before, u, Passes(output));
      && after == r.states && AreIdsOf(byDefId, r.ready, ids)
      && SkipsByConditions(edges, u, output, before, after)
      && (UniquePairs(edges) && IdsDiffer(byDefId) ==>
            forall k :: k in byDefId && !(k in after && after[k] == Pending) ==> byDefId[k].id !in ids)
    }

    method EvaluateEdges(u: Id, edges: seq<Edge>, byDefId: map<Id, TaskState>, output: Option<string>)
      returns (ids: seq<Id>)
      requires Filed(byDefId)
      modifies byDefId.Values
      ensures IsOutcome(edges, u, output, byDefId, old(Statuses(byDefId)), Statuses(byDefId), ids)
    {
      ghost var before := Statuses(byDefId);
      ids := ConsiderOutgoing(Outgoing(edges, u), edges, byDefId, output);
      ConditionsDecide(edges, before, u, output);
      if UniquePairs(edges) && IdsDiffer(byDefId) {
        OnlyPendingIsListed(edges, before, u, Passes(output), byDefId, ids);
      }
    }

    /** The batch is enqueued, and the event published. */
    method Announce(completedTaskStateId: Id, executionId: Id, ids: seq<Id>)
      modifies this`published, taskQueue
      ensures taskQueue.queue == Reverse(ids) + old(taskQueue.queue)
      ensures taskQueue.processing == old(taskQueue.processing)
      ensures published == old(published) + [(completedTaskStateId, executionId)]
    {
      if |ids| > 0 {
        taskQueue.EnqueueBatch(ids);
      }
      published := published + [(completedTaskStateId, executionId)];
    }

    method EvaluateDownstream(
      completedTaskStateId: Id, completedTaskDefId: Id, executionId: Id, edges: seq<Edge>, taskStates: seq<TaskState>)
      returns (readyTaskStateIds: seq<Id>)
      modifies this`published, taskQueue, taskStates
      ensures var byDefId := LastByDefId(taskStates);
              var output := if completedTaskDefId in byDefId then byDefId[completedTaskDefId].output else None;
              IsOutcome(edges, completedTaskDefId, output, byDefId, old(Statuses(byDefId)), Statuses(byDefId), readyTaskStateIds)
      ensures taskQueue.queue == Reverse(readyTaskStateIds) + old(taskQueue.queue)
      ensures taskQueue.processing == old(taskQueue.processing)
      ensures published == old(published) + [(completedTaskStateId, executionId)]
    {
      var byDefId := IndexByDefId(taskStates);
      var output := if completedTaskDefId in byDefId then byDefId[completedTaskDefId].output else None;
      readyTaskStateIds := EvaluateEdges(completedTaskDefId, edges, byDefId, output);
      Announce(completedTaskStateId, executionId, readyTaskStateIds);
    }
  }

  /** No two of the states have the same id. */
  ghost predicate IdsDiffer(byDefId: map<Id, TaskState>) {
    forall k, l :: k in byDefId && l in byDefId && byDefId[k].id == byDefId[l].id ==> k == l
  }

  /** The task state ids of the listed definition ids, in the same order. */
  ghost predicate AreIdsOf(byDefId: map<Id, TaskState>, ready: seq<Id>, ids: seq<Id>) {
    |ids| == |ready| && forall i :: 0 <= i < |ready| ==> ready[i] in byDefId && ids[i] == byDefId[ready[i]].id
  }

  /** `new Map(...)` over the states: a later one replaces an earlier one with the same definition id. */
  function LastByDefId(taskStates: seq<TaskState>): (m: map<Id, TaskState>)
    ensures Filed(m) && forall k :: k in m ==> m[k] in taskStates
  {
    if taskStates == [] then map[] else
      var last := taskStates[|taskStates| - 1];
      LastByDefId(taskStates[..|taskStates| - 1])[last.taskDefinitionId := last]
  }

  /** The state at i is found under its definition id when no later state has the same definition id. */
  lemma {:induction false} LastOneIsFiled(taskStates: seq<TaskState>, i: nat)
    requires i < |taskStates|
    ensures var m, k := LastByDefId(taskStates), taskStates[i].taskDefinitionId;
            k in m && ((forall j :: i < j < |taskStates| ==> taskStates[j].taskDefinitionId != k) ==> m[k] == taskStates[i])
    decreases |taskStates|
  {
    var before := taskStates[..|taskStates| - 1];
    if i < |before| {
      LastOneIsFiled(before, i);
    }
  }

  method IndexByDefId(taskStates: seq<TaskState>) returns (m: map<Id, TaskState>)
    ensures m == LastByDefId(taskStates)
  {
    m := map[];
    for i := 0 to |taskStates|
      invariant m == LastByDefId(taskStates[..i])
    {
      assert taskStates[..i + 1][..i] == taskStates[..i];
      m := m[taskStates[i].taskDefinitionId := taskStates[i]];
    }
    assert taskStates[..|taskStates|] == taskStates;
  }
}
