/** The whole-run theorems: order of starts, retries and dead letters, and what is left at the end. */
module WorkflowOutcomes {
  import opened Types
  import opened Sequences
  import opened Graphs
  import opened FanOutFanIn
  import opened ExecutorProtocol
  import opened WorkflowRuns
  import opened WorkflowSafety
  import opened RetryLedger
  import opened WorkflowProgress
  import DagValidator
  import TopologicalSorter

  predicate CrashFree(run: seq<Event>) {
    forall v :: v in run ==> !(v.Protocol? && v.a.Crash?)
  }

  /** The state reached by a run of `executors` executors that starts with `execute` at time `now`. */
  function Reached(w: Workflow, now: int, executors: nat, run: seq<Event>): System
    requires IsRunOf(w, Begun(w, now, executors), run)
  {
    EndOf(w, Begun(w, now, executors), run)
  }

  ghost predicate IsTimely(w: Workflow, now: int, executors: nat, run: seq<Event>) {
    IsRunOf(w, Begun(w, now, executors), run) && TimelyRunOf(w, Begun(w, now, executors), run)
  }

  lemma TimelyIsAccounted(w: Workflow, now: int, executors: nat, run: seq<Event>)
    requires w.Valid() && IsTimely(w, now, executors, run)
    ensures var s := Reached(w, now, executors, run); Accounted(w, s) && Safe(w, s)
  {
    BegunKeepsLedger(w, now, executors);
    RunKeepsLedger(w, Begun(w, now, executors), run);
    BegunIsSafe(w, now, executors);
    RunIsSafe(w, Begun(w, now, executors), run);
  }

  // ----- Order of starts -----

  ghost predicate PredecessorsCompleted(w: Workflow, s: System, t: Id) {
    forall e :: e in w.edges && e.target == t ==> e.source in s.status && s.status[e.source] == Completed
  }

  /** Queued, claimed, or neither pending nor cancelled. */
  ghost predicate HasStarted(s: System, t: Id) {
    || t in s.broker.lists.queue
    || (exists e :: 0 <= e < |s.broker.phases| && Carries(s.broker.phases[e]) && s.broker.phases[e].task == t)
    || (t in s.status && s.status[t] != Pending && s.status[t] != Cancelled)
  }

  /**
   With timely renewals and cancellations, crashes allowed: whatever is queued, claimed, or neither
   pending nor cancelled has all its predecessors completed now, and nothing downstream of a task
   that is not completed has started; so no descendant of a failed, timed out or cancelled task
   ever does.
   */
  lemma StartsFollowTheGraph(w: Workflow, now: int, executors: nat, run: seq<Event>)
    requires w.Valid() && IsTimely(w, now, executors, run)
    ensures var s := Reached(w, now, executors, run);
            && (forall t :: HasStarted(s, t) ==> PredecessorsCompleted(w, s, t))
            && (forall p :: IsWalk(Arcs(w.edges), p) && |p| > 1 && p[0] in s.status && s.status[p[0]] != Completed ==>
                  !HasStarted(s, p[|p| - 1]))
  {
    TimelyIsAccounted(w, now, executors, run);
    var s := Reached(w, now, executors, run);
    forall t | HasStarted(s, t) ensures PredecessorsCompleted(w, s, t) {
      StartedIsGrounded(w, s, t);
    }
    forall p | IsWalk(Arcs(w.edges), p) && |p| > 1 && p[0] in s.status && s.status[p[0]] != Completed
      ensures !HasStarted(s, p[|p| - 1])
    {
      WalkIsBlocked(w, s, p);
    }
  }

  lemma StartedIsGrounded(w: Workflow, s: System, t: Id)
    requires Ledger(w, s) && Safe(w, s) && HasStarted(s, t)
    ensures PredecessorsCompleted(w, s, t)
  {
    if exists e :: 0 <= e < |s.broker.phases| && Carries(s.broker.phases[e]) && s.broker.phases[e].task == t {
      var e :| 0 <= e < |s.broker.phases| && Carries(s.broker.phases[e]) && s.broker.phases[e].task == t;
      assert SafeJob(w, s.everDone, s.broker.phases[e], s.jobs[e]);
    }
    assert Grounded(w, s.everDone, t);
  }

  lemma {:induction false} WalkIsBlocked(w: Workflow, s: System, p: seq<Id>)
    requires forall t :: HasStarted(s, t) ==> PredecessorsCompleted(w, s, t)
    requires IsWalk(Arcs(w.edges), p) && |p| > 1 && p[0] in s.status && s.status[p[0]] != Completed
    ensures !HasStarted(s, p[|p| - 1])
    decreases |p|
  {
    var q := p[..|p| - 1];
    assert IsWalk(Arcs(w.edges), q);
    if |q| > 1 {
      WalkIsBlocked(w, s, q);
    }
    var u, t := p[|p| - 2], p[|p| - 1];
    assert (u, t) in Arcs(w.edges);
    var e :| e in w.edges && (e.source, e.target) == (u, t);
    assert u in s.status ==> s.status[u] != Completed;
  }

  // ----- A cancellation that comes late -----

  /** Nothing is cancelled. */
  predicate Uncancelled(run: seq<Event>) {
    forall v :: v in run ==> !v.CancelExecution? && !v.CancelRow?
  }

  lemma StepBesideCancel(w: Workflow, s: System, v: Event, C: set<Id>)
    requires CanDo(s, v) && !v.CancelExecution? && !v.CancelRow?
    ensures CanDo(s.(cancelling := C), v)
    ensures Step(w, s.(cancelling := C), v) == Step(w, s, v).(cancelling := C)
  {
  }

  lemma {:induction false} RunBesideCancel(w: Workflow, s: System, run: seq<Event>, C: set<Id>)
    requires IsRunOf(w, s, run) && Uncancelled(run)
    ensures IsRunOf(w, s.(cancelling := C), run)
    ensures EndOf(w, s.(cancelling := C), run) == EndOf(w, s, run).(cancelling := C)
    decreases |run|
  {
    if run != [] {
      assert run[0] in run && forall v :: v in run[1..] ==> v in run;
      StepBesideCancel(w, s, run[0], C);
      RunBesideCancel(w, Step(w, s, run[0]), run[1..], C);
    }
  }

  lemma {:induction false} NothingCancelled(w: Workflow, s: System, run: seq<Event>)
    requires IsRunOf(w, s, run) && Uncancelled(run) && Cancelled !in s.status.Values
    ensures Cancelled !in EndOf(w, s, run).status.Values
    decreases |run|
  {
    if run != [] {
      assert run[0] in run && forall v :: v in run[1..] ==> v in run;
      StepCancelsNothing(w, s, run[0]);
      NothingCancelled(w, Step(w, s, run[0]), run[1..]);
    }
  }

  lemma StepCancelsNothing(w: Workflow, s: System, v: Event)
    requires CanDo(s, v) && !v.CancelRow? && Cancelled !in s.status.Values
    ensures Cancelled !in Step(w, s, v).status.Values
  {
    var s' := Step(w, s, v);
    forall t | t in s'.status ensures s'.status[t] != Cancelled {
      assert t in s.status ==> s.status[t] in s.status.Values;
    }
  }

  lemma {:induction false} RunTakes(w: Workflow, s: System, run: seq<Event>, v: Event)
    requires IsRunOf(w, s, run) && CanDo(EndOf(w, s, run), v)
    ensures IsRunOf(w, s, run + [v]) && EndOf(w, s, run + [v]) == Step(w, EndOf(w, s, run), v)
    decreases |run|
  {
    var all := run + [v];
    if run == [] {
      assert all[0] == v && all[1..] == [];
    } else {
      assert all[0] == run[0] && all[1..] == run[1..] + [v];
      RunTakes(w, Step(w, s, run[0]), run[1..], v);
    }
  }

  lemma CancelFirst(w: Workflow, now: int, executors: nat, run: seq<Event>)
    requires IsRunOf(w, Begun(w, now, executors), run) && Uncancelled(run)
    ensures IsRunOf(w, Begun(w, now, executors), [CancelExecution] + run)
    ensures Reached(w, now, executors, [CancelExecution] + run) ==
            Reached(w, now, executors, run).(cancelling := NodeSet(w.tasks))
  {
    var begun, all := Begun(w, now, executors), [CancelExecution] + run;
    assert all[0] == CancelExecution && all[1..] == run;
    assert PendingIds(begun.status) == NodeSet(w.tasks);
    assert Step(w, begun, CancelExecution) == begun.(cancelling := NodeSet(w.tasks));
    RunBesideCancel(w, begun, run, NodeSet(w.tasks));
  }

  /**
   `StartsFollowTheGraph` needs timely cancellations: whenever a run has completed u and started
   its successor v, the same run beside a `cancel` that reads the rows at the beginning and writes
   late ends with v started and u cancelled.
   */
  lemma LateCancelOverwrites(w: Workflow, now: int, executors: nat, run: seq<Event>, e: Edge)
    requires w.Valid() && IsRunOf(w, Begun(w, now, executors), run) && Uncancelled(run)
    requires e in w.edges && e.source != e.target
    requires var s := Reached(w, now, executors, run);
             e.source in s.status && s.status[e.source] == Completed && HasStarted(s, e.target)
    ensures var late := [CancelExecution] + run + [CancelRow(e.source)];
            && IsRunOf(w, Begun(w, now, executors), late)
            && var s := Reached(w, now, executors, late);
               HasStarted(s, e.target) && e.source in s.status && s.status[e.source] == Cancelled
  {
    CancelFirst(w, now, executors, run);
    KeysStay(w, Begun(w, now, executors), run);
    BegunIsSafe(w, now, executors);
    RunIsSafe(w, Begun(w, now, executors), run);
    RunTakes(w, Begun(w, now, executors), [CancelExecution] + run, CancelRow(e.source));
  }

  // ----- Retries and dead letters -----

  /**
   Retry lifecycle, with timely renewals and validated policies: a body runs at most maxAttempts
   times, or once without a policy; a task that failed under a policy has exactly one dead letter,
   with maxAttempts attempts; one that is pending, completed, timed out or cancelled has none; and a dead
   letter exists otherwise only in the moment before `failed` is written.
   */
  lemma RetryLifecycle(w: Workflow, now: int, executors: nat, run: seq<Event>, t: Id)
    requires w.Valid() && IsTimely(w, now, executors, run) && t in NodeSet(w.tasks)
    ensures var s, limit := Reached(w, now, executors, run), Limit(w, t);
            && Shaped(s) && t in s.status
            && s.bodies[t] <= limit && s.attempts[t] <= limit
            && (s.status[t] == Failed && w.Policy(t).Some? ==> DeadLetters(s.dlq, t) == [limit] && s.bodies[t] == limit)
            && (s.status[t] == Failed && w.Policy(t).None? ==> DeadLetters(s.dlq, t) == [] && s.bodies[t] == 1)
            && (s.status[t] in {Pending, Completed, TimedOut, Cancelled} ==> DeadLetters(s.dlq, t) == [])
            && (DeadLetters(s.dlq, t) != [] ==> DeadLetters(s.dlq, t) == [limit] && s.status[t] in {Running, Failed})
  {
    TimelyIsAccounted(w, now, executors, run);
    KeysStay(w, Begun(w, now, executors), run);
    var s := Reached(w, now, executors, run);
    LimitDecides(w, t, 0);
    assert RowOk(w, t, RowOf(s, t));
  }

  lemma {:induction false} KeysStay(w: Workflow, s: System, run: seq<Event>)
    requires IsRunOf(w, s, run)
    ensures EndOf(w, s, run).status.Keys == s.status.Keys
    decreases |run|
  {
    if run != [] {
      KeysStay(w, Step(w, s, run[0]), run[1..]);
    }
  }

  // ----- What is left at the end -----

  lemma {:induction false} RunKeepsGood(w: Workflow, s: System, run: seq<Event>)
    requires Good(w, s) && IsRunOf(w, s, run) && TimelyRunOf(w, s, run) && CrashFree(run)
    ensures Good(w, EndOf(w, s, run))
    decreases |run|
  {
    if run != [] {
      assert run[0] in run && forall v :: v in run[1..] ==> v in run;
      StepKeepsLedger(w, s, run[0]);
      StepIsSafe(w, s, run[0]);
      StepKeepsLive(w, s, run[0]);
      RunKeepsGood(w, Step(w, s, run[0]), run[1..]);
    }
  }

  lemma BegunIsGood(w: Workflow, now: int, executors: nat)
    requires w.Valid()
    ensures Good(w, Begun(w, now, executors))
  {
    BegunKeepsLedger(w, now, executors);
    BegunIsSafe(w, now, executors);
    var s := Begun(w, now, executors);
    FilterHolds(Ids(w.tasks), n => forall e :: e in w.edges ==> e.target != n);
    IdsAreNodes(w.tasks);
    forall v | IsPending(s.status, v) ensures Alive(w, s, v) {
      if v !in s.roots {
        var e :| e in w.edges && e.target == v;
        assert Unevaluated(s, e.source);
      }
    }
  }

  /** Nothing queued, claimed, running, still to be evaluated or still to be enqueued. */
  predicate Quiescent(s: System) {
    && s.broker.lists.queue == [] && s.roots == []
    && (forall p :: p in s.broker.phases ==> p.Idle?)
    && (forall j :: j in s.jobs ==> j.NoJob?)
  }

  /** Below a task that failed, timed out or was cancelled. */
  ghost predicate HasFailedAncestor(w: Workflow, s: System, v: Id) {
    exists p :: IsWalk(Arcs(w.edges), p) && |p| > 1 && p[|p| - 1] == v
                && p[0] in s.status && s.status[p[0]] in {Failed, TimedOut, Cancelled}
  }

  lemma EdgeExtends(w: Workflow, s: System, u: Id, v: Id)
    requires (u, v) in Arcs(w.edges) && u in s.status
    requires s.status[u] in {Failed, TimedOut, Cancelled} || HasFailedAncestor(w, s, u)
    ensures HasFailedAncestor(w, s, v)
  {
    if s.status[u] in {Failed, TimedOut, Cancelled} {
      assert IsWalk(Arcs(w.edges), [u, v]) && [u, v][0] == u && [u, v][1] == v;
    } else {
      var p :| IsWalk(Arcs(w.edges), p) && |p| > 1 && p[|p| - 1] == u
               && p[0] in s.status && s.status[p[0]] in {Failed, TimedOut, Cancelled};
      var q := p + [v];
      assert IsWalk(Arcs(w.edges), q) && q[0] == p[0] && q[|q| - 1] == v;
    }
  }

  /** With nothing left to do, a pending task waits for a predecessor that failed, timed out, was cancelled or is pending. */
  lemma PendingWaits(w: Workflow, s: System, v: Id) returns (u: Id)
    requires w.Valid() && Live(w, s) && Ledger(w, s) && Quiescent(s) && IsPending(s.status, v)
    ensures (u, v) in Arcs(w.edges) && u in s.status && s.status[u] in {Failed, TimedOut, Cancelled, Pending}
  {
    NothingScheduled(s, v);
    var e :| e in w.edges && e.target == v && Unevaluated(s, e.source);
    u := e.source;
    NothingScheduled(s, u);
    assert RowOk(w, u, RowOf(s, u));
  }

  lemma {:induction false} PendingHasFailedAncestor(w: Workflow, s: System, order: seq<Id>, i: nat)
    requires w.Valid() && Live(w, s) && Ledger(w, s) && Quiescent(s)
    requires IsTopologicalOrder(GraphOf(w.tasks, w.edges), order)
    requires i < |order| && IsPending(s.status, order[i])
    ensures HasFailedAncestor(w, s, order[i])
    decreases i
  {
    var u := PendingWaits(w, s, order[i]);
    if s.status[u] == Pending {
      ArcClimbs(GraphOf(w.tasks, w.edges), order, u, order[i]);
      FirstPosition(order, i);
      PendingHasFailedAncestor(w, s, order, IndexOf(order, u));
    }
    EdgeExtends(w, s, u, order[i]);
  }

  lemma FirstPosition(order: seq<Id>, i: nat)
    requires NoDuplicates(order) && i < |order|
    ensures IndexOf(order, order[i]) == i
  {
  }

  lemma NothingScheduled(s: System, v: Id)
    requires Quiescent(s) && Manned(s)
    ensures !Scheduled(s, v)
    ensures Unevaluated(s, v) ==> v in s.status && s.status[v] != Completed
    ensures v in s.status ==> s.status[v] != Running
  {
    forall e: nat ensures !CoversAt(s, e, v) && !AwaitsAt(s, e, v) && !RunsAt(s, e, v) {
      if e < |s.jobs| && e < |s.broker.phases| {
        assert s.jobs[e] in s.jobs && s.broker.phases[e] in s.broker.phases;
      }
    }
  }

  /** Ended, or pending below a failure; and dead letters are exactly those of failed tasks with a policy. */
  ghost predicate IsSettled(w: Workflow, s: System, v: Id) {
    && Shaped(s) && v in s.status && s.status[v] in {Completed, Failed, TimedOut, Cancelled, Pending}
    && (s.status[v] == Pending <==> HasFailedAncestor(w, s, v) && s.status[v] != Cancelled)
    && (w.Policy(v).Some? ==> (s.status[v] == Failed <==> |DeadLetters(s.dlq, v)| == 1))
  }

  lemma QuiescentIsSettled(w: Workflow, s: System, order: seq<Id>, v: Id)
    requires w.Valid() && Live(w, s) && Ledger(w, s) && Quiescent(s) && v in s.status
    requires IsTopologicalOrder(GraphOf(w.tasks, w.edges), order) && v in order
    requires HasFailedAncestor(w, s, v) ==> !HasStarted(s, v)
    ensures IsSettled(w, s, v)
  {
    assert RowOk(w, v, RowOf(s, v));
    NothingScheduled(s, v);
    if s.status[v] == Pending {
      PendingHasFailedAncestor(w, s, order, IndexOf(order, v));
    }
  }

  lemma AcceptedOrder(w: Workflow) returns (order: seq<Id>)
    requires w.Valid() && DagValidator.Validation(w.tasks, w.edges) == []
    ensures IsTopologicalOrder(GraphOf(w.tasks, w.edges), order)
    ensures forall v :: v in order <==> v in NodeSet(w.tasks)
  {
    DagValidator.ValidationIsExact(w.tasks, w.edges);
    TopologicalSorter.ValidExactlyWhenAcyclic(w.tasks, w.edges);
    TopologicalSorter.SortIsCorrect(w.tasks, w.edges);
    order := TopologicalSorter.Sort(w.tasks, w.edges).order;
  }

  /**
   Whole-run progress, for a workflow that validateDAG accepts and that has no conditions: when
   nothing is queued, running or awaiting evaluation, under every interleaving and with retries,
   every task is completed, failed, timed out, cancelled or pending; one that was not cancelled is
   pending exactly when one of its ancestors failed, timed out or was cancelled; and it has a dead
   letter exactly when it failed under a policy. Nothing is cancelled where `cancel` was not called.
   */
  lemma QuiescenceIsExact(w: Workflow, now: int, executors: nat, run: seq<Event>)
    requires w.Valid() && DagValidator.Validation(w.tasks, w.edges) == []
    requires IsTimely(w, now, executors, run) && CrashFree(run)
    requires Quiescent(Reached(w, now, executors, run))
    ensures var s := Reached(w, now, executors, run);
            s.status.Keys == NodeSet(w.tasks) && forall v :: v in NodeSet(w.tasks) ==> IsSettled(w, s, v)
    ensures Uncancelled(run) ==> forall v :: v in NodeSet(w.tasks) ==> Reached(w, now, executors, run).status[v] != Cancelled
  {
    ReachedIsLive(w, now, executors, run);
    if Uncancelled(run) {
      NothingCancelled(w, Begun(w, now, executors), run);
    }
    var order := AcceptedOrder(w);
    AllSettled(w, Reached(w, now, executors, run), order);
  }

  lemma ReachedIsLive(w: Workflow, now: int, executors: nat, run: seq<Event>)
    requires w.Valid() && IsTimely(w, now, executors, run) && CrashFree(run)
    ensures var s := Reached(w, now, executors, run);
            Live(w, s) && Ledger(w, s) && forall v :: HasFailedAncestor(w, s, v) ==> !HasStarted(s, v)
  {
    BegunIsGood(w, now, executors);
    RunKeepsGood(w, Begun(w, now, executors), run);
    StartsFollowTheGraph(w, now, executors, run);
  }

  lemma AllSettled(w: Workflow, s: System, order: seq<Id>)
    requires w.Valid() && Live(w, s) && Ledger(w, s) && Quiescent(s)
    requires IsTopologicalOrder(GraphOf(w.tasks, w.edges), order)
    requires forall v :: HasFailedAncestor(w, s, v) ==> !HasStarted(s, v)
    ensures s.status.Keys == NodeSet(w.tasks) && forall v :: v in NodeSet(w.tasks) ==> IsSettled(w, s, v)
  {
    forall v | v in NodeSet(w.tasks) ensures IsSettled(w, s, v) {
      assert v in GraphOf(w.tasks, w.edges).nodes;
      QuiescentIsSettled(w, s, order, v);
    }
  }

  lemma {:induction false} ExecutorsStay(w: Workflow, s: System, run: seq<Event>)
    requires IsRunOf(w, s, run) && CrashFree(run)
    requires |s.jobs| == |s.broker.phases| && NobodyCrashed(s.broker)
    ensures var s' := EndOf(w, s, run);
            |s'.jobs| == |s'.broker.phases| == |s.jobs| && NobodyCrashed(s'.broker)
    decreases |run|
  {
    if run != [] {
      assert run[0] in run && forall v :: v in run[1..] ==> v in run;
      StepCrashesNobody(w, s, run[0]);
      ExecutorsStay(w, Step(w, s, run[0]), run[1..]);
    }
  }

  predicate NobodyCrashed(b: Broker) {
    forall p :: p in b.phases ==> !p.Crashed?
  }

  lemma ActionCrashesNobody(b: Broker, a: Action)
    requires Enabled(b, a) && !a.Crash? && NobodyCrashed(b)
    ensures |Apply(b, a).phases| == |b.phases| && NobodyCrashed(Apply(b, a))
  {
    var b' := Apply(b, a);
    forall p | p in b'.phases ensures !p.Crashed? {
      var e :| 0 <= e < |b'.phases| && b'.phases[e] == p;
      assert b.phases[e] in b.phases;
    }
  }

  lemma OtherStepKeepsPhases(w: Workflow, s: System, v: Event)
    requires CanDo(s, v) && !v.Protocol?
    ensures Step(w, s, v).broker.phases == s.broker.phases
  {
  }

  lemma StepKeepsJobCount(w: Workflow, s: System, v: Event)
    requires CanDo(s, v)
    ensures |Step(w, s, v).jobs| == |s.jobs|
  {
  }

  lemma StepCrashesNobody(w: Workflow, s: System, v: Event)
    requires CanDo(s, v) && (v.Protocol? ==> !v.a.Crash?) && NobodyCrashed(s.broker)
    ensures var s' := Step(w, s, v); |s'.jobs| == |s'.broker.phases| == |s.jobs| && NobodyCrashed(s'.broker)
  {
    StepKeepsJobCount(w, s, v);
    if v.Protocol? {
      ActionCrashesNobody(s.broker, v.a);
    } else {
      OtherStepKeepsPhases(w, s, v);
    }
  }

  /** No body of the run fails or times out, and nothing is cancelled. */
  predicate AllSucceed(run: seq<Event>) {
    forall v :: v in run ==> !v.CancelExecution? && (v.Body? ==> v.outcome.Success?)
  }

  ghost predicate NoFailure(s: System) {
    && (forall t :: t in s.status ==> s.status[t] !in {Failed, TimedOut, Cancelled}) && s.cancelling == {}
    && (forall t :: t in s.attempts ==> s.attempts[t] == 0)
    && (forall j :: j in s.jobs ==> !j.Counted? && !j.DeadLettered? && (j.Executed? ==> j.outcome.Success?))
  }

  lemma StepWithoutFailure(w: Workflow, s: System, v: Event)
    requires NoFailure(s) && CanDo(s, v) && !v.CancelExecution? && (v.Body? ==> v.outcome.Success?)
    ensures NoFailure(Step(w, s, v))
  {
    var s' := Step(w, s, v);
    forall j | j in s'.jobs ensures !j.Counted? && !j.DeadLettered? && (j.Executed? ==> j.outcome.Success?) {
      var e :| 0 <= e < |s'.jobs| && s'.jobs[e] == j;
      assert s.jobs[e] in s.jobs;
    }
  }

  lemma {:induction false} RunWithoutFailure(w: Workflow, s: System, run: seq<Event>)
    requires NoFailure(s) && IsRunOf(w, s, run) && AllSucceed(run)
    ensures NoFailure(EndOf(w, s, run))
    decreases |run|
  {
    if run != [] {
      assert run[0] in run && forall v :: v in run[1..] ==> v in run;
      StepWithoutFailure(w, s, run[0]);
      RunWithoutFailure(w, Step(w, s, run[0]), run[1..]);
    }
  }

  lemma NothingFails(w: Workflow, now: int, executors: nat, run: seq<Event>)
    requires IsRunOf(w, Begun(w, now, executors), run) && AllSucceed(run)
    ensures NoFailure(Reached(w, now, executors, run))
  {
    RunWithoutFailure(w, Begun(w, now, executors), run);
  }

  /** Every task is completed, after exactly one run of its body. */
  ghost predicate IsComplete(w: Workflow, s: System) {
    && Shaped(s) && s.status.Keys == NodeSet(w.tasks)
    && forall t :: t in s.status ==> s.status[t] == Completed && s.bodies[t] == 1
  }

  /** Where every body succeeds, nothing left to do means that every task is completed, after exactly one run of its body. */
  lemma SuccessCompletesEverything(w: Workflow, now: int, executors: nat, run: seq<Event>)
    requires w.Valid() && DagValidator.Validation(w.tasks, w.edges) == []
    requires IsTimely(w, now, executors, run) && CrashFree(run) && AllSucceed(run)
    requires Quiescent(Reached(w, now, executors, run))
    ensures IsComplete(w, Reached(w, now, executors, run))
  {
    TimelyIsAccounted(w, now, executors, run);
    NothingFails(w, now, executors, run);
    QuiescenceIsExact(w, now, executors, run);
    SettledWithoutFailure(w, Reached(w, now, executors, run));
  }

  lemma SettledWithoutFailure(w: Workflow, s: System)
    requires NoFailure(s) && Ledger(w, s) && s.status.Keys == NodeSet(w.tasks)
    requires forall v :: v in NodeSet(w.tasks) ==> IsSettled(w, s, v)
    ensures forall t :: t in s.status ==> s.status[t] == Completed && s.bodies[t] == 1
  {
    forall t | t in s.status ensures s.status[t] == Completed && s.bodies[t] == 1 {
      assert IsSettled(w, s, t);
      assert RowOk(w, t, RowOf(s, t));
    }
  }
}
