/**
 Rest is always within reach: whatever interleaving has led to a state, with timely renewals and
 no crash, some timely run without a crash leads on to a state with nothing left to do.

 The run drains one executor after the other, then claims and works off one queued task at a time.
 */
module WorkflowContinuation {
  import opened Types
  import opened Sequences
  import opened Graphs
  import opened LockManagers
  import opened StateMachine
  import opened FanOutFanIn
  import opened ExecutorProtocol
  import opened WorkflowRuns
  import opened WorkflowSafety
  import opened RetryLedger
  import opened WorkflowProgress
  import opened WorkflowOutcomes
  import DagValidator

  /** Every lock expires within a TTL from now. */
  predicate LocksExpire(b: Broker) {
    forall t :: t in b.locks ==> b.locks[t].expiry <= b.now + TTL
  }

  lemma ActionLetsLocksExpire(b: Broker, a: Action)
    requires Enabled(b, a) && LocksExpire(b)
    ensures LocksExpire(Apply(b, a))
  {
  }

  lemma StepLetsLocksExpire(w: Workflow, s: System, v: Event)
    requires CanDo(s, v) && LocksExpire(s.broker)
    ensures LocksExpire(Step(w, s, v).broker)
  {
    if v.Protocol? {
      ActionLetsLocksExpire(s.broker, v.a);
    } else {
      assert Step(w, s, v).broker.locks == s.broker.locks && Step(w, s, v).broker.now == s.broker.now;
    }
  }

  lemma {:induction false} RunLetsLocksExpire(w: Workflow, s: System, run: seq<Event>)
    requires IsRunOf(w, s, run) && LocksExpire(s.broker)
    ensures LocksExpire(EndOf(w, s, run).broker)
    decreases |run|
  {
    if run != [] {
      StepLetsLocksExpire(w, s, run[0]);
      RunLetsLocksExpire(w, Step(w, s, run[0]), run[1..]);
    }
  }

  ghost predicate Healthy(w: Workflow, s: System) {
    Good(w, s) && |s.jobs| == |s.broker.phases| && NobodyCrashed(s.broker) && LocksExpire(s.broker)
  }

  // ----- Advancing -----

  /** A step that is not the passing of time, a renewal, a crash or a cancellation. */
  predicate IsAdvance(v: Event) {
    !v.CancelExecution? && !v.CancelRow? && (v.Protocol? ==> !v.a.Tick? && !v.a.TimerRenew? && !v.a.WaitRenew? && !v.a.Crash?)
  }

  /** What executor `e` does next. */
  function NextOf(s: System, e: nat): Event
    requires e < |s.jobs| == |s.broker.phases|
  {
    match s.broker.phases[e]
    case Idle =>
      (match s.jobs[e]
       case Evaluating(_) => Snapshot(e)
       case Enqueueing(_) => PushNext(e)
       case Reenqueueing(_) => PushRetry(e)
       case _ => Protocol(Action.Claim(e)))
    case Popped(_) => Protocol(TryLock(e))
    case Denied(_) => Protocol(RequeueRemove(e))
    case Holding(_) => Protocol(RequeuePush(e))
    case Unlocking(_) => Protocol(RemoveClaim(e))
    case Working(_, _, _, _) =>
      (match s.jobs[e]
       case Fetching => Fetch(e)
       case Fetched(_, _) => Begin(e)
       case Started(_) => Body(e, Success)
       case Executed(_, _) => Finish(e)
       case Counted(_) => Decide(e)
       case Waiting(_, _) => Repend(e)
       case DeadLettered(_) => Fail(e)
       case _ => Protocol(ReleaseLock(e)))
    case Crashed => PushRoot
  }

  /** The executor is in the backoff before another attempt. */
  predicate BacksOff(s: System, e: nat) {
    e < |s.jobs| && s.jobs[e].Waiting? && s.broker.now < s.jobs[e].until
  }

  predicate IsAtRest(s: System, e: nat) {
    e < |s.jobs| && e < |s.broker.phases| && s.broker.phases[e].Idle? && s.jobs[e].NoJob?
  }

  lemma BusyCanAdvance(w: Workflow, s: System, e: nat)
    requires Safe(w, s) && Covered(s.broker) && s.status.Keys == NodeSet(w.tasks) && e < |s.jobs|
    requires !s.broker.phases[e].Crashed? && !BacksOff(s, e)
    requires !IsAtRest(s, e) || s.broker.lists.queue != []
    ensures CanDo(s, NextOf(s, e)) && IsAdvance(NextOf(s, e))
  {
    assert SafeJob(w, s.everDone, s.broker.phases[e], s.jobs[e]);
  }

  // ----- Runs, built from the front -----

  /** A timely run of events that are allowed. */
  ghost predicate IsCalm(w: Workflow, allowed: Event -> bool, s: System, run: seq<Event>) {
    IsRunOf(w, s, run) && TimelyRunOf(w, s, run) && forall v :: v in run ==> allowed(v)
  }

  ghost predicate CanCalmly(w: Workflow, allowed: Event -> bool, s: System, s': System) {
    exists run :: IsCalm(w, allowed, s, run) && EndOf(w, s, run) == s'
  }

  lemma CalmStay(w: Workflow, allowed: Event -> bool, s: System)
    requires Timely(s.broker)
    ensures CanCalmly(w, allowed, s, s)
  {
    assert IsCalm(w, allowed, s, []) && EndOf(w, s, []) == s;
  }

  lemma CalmStep(w: Workflow, allowed: Event -> bool, s: System, v: Event, s': System)
    requires Timely(s.broker) && CanDo(s, v) && allowed(v) && IsOnTime(s, v) && CanCalmly(w, allowed, Step(w, s, v), s')
    ensures CanCalmly(w, allowed, s, s')
  {
    var rest :| IsCalm(w, allowed, Step(w, s, v), rest) && EndOf(w, Step(w, s, v), rest) == s';
    var run := [v] + rest;
    assert run[0] == v && run[1..] == rest;
    assert IsCalm(w, allowed, s, run) && EndOf(w, s, run) == s';
  }

  lemma {:induction false} CalmFollow(w: Workflow, allowed: Event -> bool, s: System, run: seq<Event>, s'': System)
    requires IsCalm(w, allowed, s, run) && CanCalmly(w, allowed, EndOf(w, s, run), s'')
    ensures CanCalmly(w, allowed, s, s'')
    decreases |run|
  {
    if run != [] {
      assert run[0] in run && forall v :: v in run[1..] ==> v in run;
      CalmFollow(w, allowed, Step(w, s, run[0]), run[1..], s'');
      CalmStep(w, allowed, s, run[0], s'');
    }
  }

  lemma CalmThen(w: Workflow, allowed: Event -> bool, a: System, b: System, c: System)
    requires CanCalmly(w, allowed, a, b) && CanCalmly(w, allowed, b, c)
    ensures CanCalmly(w, allowed, a, c)
  {
    var run :| IsCalm(w, allowed, a, run) && EndOf(w, a, run) == b;
    CalmFollow(w, allowed, a, run, c);
  }

  // ----- One step of one executor -----

  /** An upper bound on the steps until the executor is at rest; `E` bounds what one evaluation lists. */
  function Rank(p: Phase, j: Job, E: nat): nat {
    match p
    case Idle =>
      (match j
       case Evaluating(_) => E + 3
       case Enqueueing(rest) => |rest| + 1
       case Reenqueueing(_) => 1
       case _ => 0)
    case Popped(_) => E + 20
    case Denied(_) => 2
    case Holding(_) => 1
    case Working(_, _, _, _) =>
      (match j
       case Fetching => E + 15
       case Fetched(_, _) => E + 14
       case Started(_) => E + 13
       case Executed(_, _) => E + 12
       case Counted(_) => E + 11
       case Waiting(_, _) => E + 10
       case DeadLettered(_) => E + 10
       case _ => E + 6)
    case Unlocking(_) => E + 5
    case Crashed => 0
  }

  function RankOf(w: Workflow, s: System, e: nat): nat
    requires e < |s.jobs| == |s.broker.phases|
  {
    Rank(s.broker.phases[e], s.jobs[e], |w.edges|)
  }

  lemma {:induction false} FilterIsShorter<T>(s: seq<T>, keep: T -> bool)
    ensures |Filter(s, keep)| <= |s|
  {
    if s != [] {
      FilterIsShorter(s[1..], keep);
    }
  }

  lemma {:induction false} TargetsAreFew(edges: seq<Edge>, n: Id)
    ensures |Targets(edges, n)| <= |edges|
  {
    if edges != [] {
      TargetsAreFew(edges[1..], n);
    }
  }

  lemma SnapshotListsFew(w: Workflow, s: System, e: nat)
    requires w.Valid() && CanDo(s, Snapshot(e))
    ensures Step(w, s, Snapshot(e)).jobs[e].Enqueueing? && |Step(w, s, Snapshot(e)).jobs[e].rest| <= |w.edges|
  {
    var u := s.jobs[e].done;
    UnconditionalEvaluationIsExact(w.edges, s.status, u, _ => false);
    FilterIsShorter(Targets(w.edges, u), v => IsPending(s.status, v) && IsReady(w.edges, s.status, v));
    TargetsAreFew(w.edges, u);
  }

  /** A step moves one executor only, takes no time, and leaves the roots alone. */
  ghost predicate MovesOnly(s: System, s': System, e: nat) {
    && |s'.jobs| == |s.jobs| && |s'.broker.phases| == |s.broker.phases|
    && s'.broker.now == s.broker.now && s'.roots == s.roots
    && forall f :: 0 <= f < |s.jobs| && f < |s.broker.phases| && f != e ==>
         s'.jobs[f] == s.jobs[f] && s'.broker.phases[f] == s.broker.phases[f]
  }

  /** A task that was not worked on before has its first renewal a full interval ahead. */
  ghost predicate IsPrompt(s: System, s': System, e: nat)
    requires e < |s.broker.phases| == |s'.broker.phases|
  {
    var p, p' := s.broker.phases[e], s'.broker.phases[e];
    p'.Working? ==> p' == p || p'.due == s.broker.now + INTERVAL
  }

  /** A step towards rest: the rank of the executor falls. */
  ghost predicate Approaches(w: Workflow, s: System, s': System, e: nat) {
    && e < |s.jobs| == |s.broker.phases| && MovesOnly(s, s', e) && IsPrompt(s, s', e)
    && RankOf(w, s', e) < RankOf(w, s, e)
    && (Waits(s, e) || PendingIds(s'.status) <= PendingIds(s.status))
    && (Waits(s', e) ==> Waits(s, e))
  }

  /** On the way to another attempt; a body that this run lets run succeeds. */
  predicate JobWaits(j: Job) {
    j.Counted? || j.Waiting? || j.DeadLettered? || (j.Executed? && !j.outcome.Success?)
  }

  predicate Waits(s: System, e: nat) {
    e < |s.jobs| && JobWaits(s.jobs[e])
  }

  lemma MoveApproaches(w: Workflow, s: System, s': System, e: nat, p: Phase, j: Job)
    requires e < |s.jobs| == |s.broker.phases|
    requires s'.broker.phases == s.broker.phases[e := p] && s'.jobs == s.jobs[e := j]
    requires s'.broker.now == s.broker.now && s'.roots == s.roots
    requires Rank(p, j, |w.edges|) < RankOf(w, s, e) && (JobWaits(j) ==> JobWaits(s.jobs[e]))
    requires JobWaits(s.jobs[e]) || PendingIds(s'.status) <= PendingIds(s.status)
    requires p.Working? ==> p == s.broker.phases[e] || p.due == s.broker.now + INTERVAL
    ensures Approaches(w, s, s', e)
  {
  }

  predicate FitsAt(s: System, e: nat) {
    e < |s.jobs| == |s.broker.phases| && Fits(s.broker.phases[e], s.jobs[e])
  }

  lemma ListNext(w: Workflow, s: System, e: nat)
    requires FitsAt(s, e) && CanDo(s, NextOf(s, e))
    requires s.broker.phases[e].Popped? || s.broker.phases[e].Denied? || s.broker.phases[e].Holding?
    ensures Approaches(w, s, Step(w, s, NextOf(s, e)), e)
  {
    var s' := Step(w, s, NextOf(s, e));
    var p, j := s'.broker.phases[e], s'.jobs[e];
    match s.broker.phases[e]
    case Popped(_) => MoveApproaches(w, s, s', e, p, j);
    case Denied(t) => MoveApproaches(w, s, s', e, Holding(t), NoJob);
    case Holding(_) => MoveApproaches(w, s, s', e, Idle, NoJob);
  }

  lemma ReleaseNext(w: Workflow, s: System, e: nat)
    requires FitsAt(s, e) && CanDo(s, Protocol(ReleaseLock(e)))
    ensures Approaches(w, s, Step(w, s, Protocol(ReleaseLock(e))), e)
  {
    var s' := Step(w, s, Protocol(ReleaseLock(e)));
    MoveApproaches(w, s, s', e, Unlocking(s.broker.phases[e].task), s.jobs[e]);
  }

  lemma RemoveNext(w: Workflow, s: System, e: nat)
    requires FitsAt(s, e) && CanDo(s, Protocol(RemoveClaim(e)))
    ensures Approaches(w, s, Step(w, s, Protocol(RemoveClaim(e))), e)
  {
    var s' := Step(w, s, Protocol(RemoveClaim(e)));
    var j := s'.jobs[e];
    MoveApproaches(w, s, s', e, Idle, j);
  }

  lemma SnapshotNext(w: Workflow, s: System, e: nat)
    requires w.Valid() && FitsAt(s, e) && CanDo(s, Snapshot(e))
    ensures Approaches(w, s, Step(w, s, Snapshot(e)), e)
  {
    SnapshotListsFew(w, s, e);
    var j := Step(w, s, Snapshot(e)).jobs[e];
    MoveApproaches(w, s, Step(w, s, Snapshot(e)), e, Idle, j);
  }

  lemma PushNextNext(w: Workflow, s: System, e: nat)
    requires FitsAt(s, e) && CanDo(s, PushNext(e))
    ensures Approaches(w, s, Step(w, s, PushNext(e)), e)
  {
    var j := Step(w, s, PushNext(e)).jobs[e];
    MoveApproaches(w, s, Step(w, s, PushNext(e)), e, Idle, j);
  }

  lemma PushRetryNext(w: Workflow, s: System, e: nat)
    requires FitsAt(s, e) && CanDo(s, PushRetry(e))
    ensures Approaches(w, s, Step(w, s, PushRetry(e)), e)
  {
    MoveApproaches(w, s, Step(w, s, PushRetry(e)), e, Idle, NoJob);
  }

  lemma IdleNext(w: Workflow, s: System, e: nat)
    requires w.Valid() && FitsAt(s, e) && CanDo(s, NextOf(s, e)) && s.broker.phases[e].Idle? && !s.jobs[e].NoJob?
    ensures Approaches(w, s, Step(w, s, NextOf(s, e)), e)
  {
    match s.jobs[e]
    case Evaluating(_) => SnapshotNext(w, s, e);
    case Enqueueing(_) => PushNextNext(w, s, e);
    case Reenqueueing(_) => PushRetryNext(w, s, e);
  }

  lemma FetchNext(w: Workflow, s: System, e: nat)
    requires FitsAt(s, e) && CanDo(s, Fetch(e))
    ensures Approaches(w, s, Step(w, s, Fetch(e)), e)
  {
    MoveApproaches(w, s, Step(w, s, Fetch(e)), e, s.broker.phases[e], Step(w, s, Fetch(e)).jobs[e]);
  }

  lemma BeginNext(w: Workflow, s: System, e: nat)
    requires FitsAt(s, e) && CanDo(s, Begin(e))
    ensures Approaches(w, s, Step(w, s, Begin(e)), e)
  {
    MoveApproaches(w, s, Step(w, s, Begin(e)), e, s.broker.phases[e], Step(w, s, Begin(e)).jobs[e]);
  }

  lemma BodyNext(w: Workflow, s: System, e: nat)
    requires FitsAt(s, e) && CanDo(s, Body(e, Success))
    ensures Approaches(w, s, Step(w, s, Body(e, Success)), e)
  {
    MoveApproaches(w, s, Step(w, s, Body(e, Success)), e, s.broker.phases[e], Executed(s.jobs[e].attempts, Success));
  }

  lemma FinishNext(w: Workflow, s: System, e: nat)
    requires FitsAt(s, e) && CanDo(s, Finish(e))
    ensures Approaches(w, s, Step(w, s, Finish(e)), e)
  {
    MoveApproaches(w, s, Step(w, s, Finish(e)), e, s.broker.phases[e], Step(w, s, Finish(e)).jobs[e]);
  }

  lemma DecideNext(w: Workflow, s: System, e: nat)
    requires FitsAt(s, e) && CanDo(s, Decide(e))
    ensures Approaches(w, s, Step(w, s, Decide(e)), e)
  {
    MoveApproaches(w, s, Step(w, s, Decide(e)), e, s.broker.phases[e], Step(w, s, Decide(e)).jobs[e]);
  }

  lemma EndNext(w: Workflow, s: System, e: nat, v: Event)
    requires FitsAt(s, e) && CanDo(s, v) && (v == Fail(e) || v == Repend(e))
    ensures Approaches(w, s, Step(w, s, v), e)
  {
    MoveApproaches(w, s, Step(w, s, v), e, s.broker.phases[e], Step(w, s, v).jobs[e]);
  }

  lemma WorkingNext(w: Workflow, s: System, e: nat)
    requires FitsAt(s, e) && s.broker.phases[e].Working? && CanDo(s, NextOf(s, e))
    ensures Approaches(w, s, Step(w, s, NextOf(s, e)), e)
  {
    match s.jobs[e]
    case Fetching => FetchNext(w, s, e);
    case Fetched(_, _) => BeginNext(w, s, e);
    case Started(_) => BodyNext(w, s, e);
    case Executed(_, _) => FinishNext(w, s, e);
    case Counted(_) => DecideNext(w, s, e);
    case Waiting(_, _) => EndNext(w, s, e, Repend(e));
    case DeadLettered(_) => EndNext(w, s, e, Fail(e));
    case _ => ReleaseNext(w, s, e);
  }

  lemma NextApproaches(w: Workflow, s: System, e: nat)
    requires w.Valid() && FitsAt(s, e) && !IsAtRest(s, e) && !s.broker.phases[e].Crashed? && CanDo(s, NextOf(s, e))
    ensures Approaches(w, s, Step(w, s, NextOf(s, e)), e)
  {
    match s.broker.phases[e]
    case Idle => IdleNext(w, s, e);
    case Unlocking(_) => RemoveNext(w, s, e);
    case Working(_, _, _, _) => WorkingNext(w, s, e);
    case _ => ListNext(w, s, e);
  }

  // ----- Steps keep the state healthy -----

  lemma ClaimMovesOnly(w: Workflow, s: System, e: nat)
    requires IsAtRest(s, e) && |s.jobs| == |s.broker.phases| && CanDo(s, Protocol(Action.Claim(e)))
    ensures var s' := Step(w, s, Protocol(Action.Claim(e))); MovesOnly(s, s', e) && IsPrompt(s, s', e)
  {
  }

  lemma NextIsTimely(s: System, s': System, e: nat)
    requires Timely(s.broker) && e < |s.jobs| == |s.broker.phases| && MovesOnly(s, s', e) && IsPrompt(s, s', e)
    ensures Timely(s'.broker)
  {
  }

  lemma StaysHealthy(w: Workflow, s: System, v: Event)
    requires Healthy(w, s) && CanDo(s, v) && (v.Protocol? ==> !v.a.Crash?) && IsOnTime(s, v) && Timely(Step(w, s, v).broker)
    ensures Healthy(w, Step(w, s, v))
  {
    StepKeepsLedger(w, s, v);
    StepIsSafe(w, s, v);
    StepKeepsLive(w, s, v);
    StepCrashesNobody(w, s, v);
    StepLetsLocksExpire(w, s, v);
  }

  lemma SingleStep(w: Workflow, allowed: Event -> bool, s: System, v: Event)
    requires CanDo(s, v) && allowed(v) && IsOnTime(s, v) && Timely(s.broker) && Timely(Step(w, s, v).broker)
    ensures CanCalmly(w, allowed, s, Step(w, s, v))
  {
    CalmStay(w, allowed, Step(w, s, v));
    CalmStep(w, allowed, s, v, Step(w, s, v));
  }

  lemma HealthyNext(w: Workflow, s: System, e: nat)
    requires Healthy(w, s) && e < |s.jobs| && !BacksOff(s, e) && (!IsAtRest(s, e) || s.broker.lists.queue != [])
    ensures CanDo(s, NextOf(s, e)) && IsAdvance(NextOf(s, e)) && !s.broker.phases[e].Crashed? && FitsAt(s, e)
    ensures w.Valid() && Timely(s.broker)
  {
    assert s.broker.phases[e] in s.broker.phases;
    assert SafeJob(w, s.everDone, s.broker.phases[e], s.jobs[e]);
    BusyCanAdvance(w, s, e);
  }

  lemma NextSucceeds(s: System, e: nat)
    requires e < |s.jobs| == |s.broker.phases|
    ensures Succeeds(NextOf(s, e))
  {
  }

  lemma NextMoves(w: Workflow, s: System, e: nat)
    requires w.Valid() && FitsAt(s, e) && !s.broker.phases[e].Crashed? && Timely(s.broker) && CanDo(s, NextOf(s, e))
    ensures var s' := Step(w, s, NextOf(s, e));
            MovesOnly(s, s', e) && Timely(s'.broker) && (!IsAtRest(s, e) ==> Approaches(w, s, s', e))
  {
    if IsAtRest(s, e) {
      ClaimMovesOnly(w, s, e);
    } else {
      NextApproaches(w, s, e);
    }
    NextIsTimely(s, Step(w, s, NextOf(s, e)), e);
  }

  /** The passing of time, or the callback of a renewal timer. */
  predicate IsWait(v: Event) {
    v.Protocol? && (v.a.Tick? || v.a.TimerRenew?)
  }

  predicate IsOrderly(v: Event) {
    !v.CancelExecution? && !v.CancelRow? && (v.Protocol? ==> !v.a.Crash?)
  }

  /** No crash, no cancellation, and no body that fails or times out. */
  predicate Succeeds(v: Event) {
    IsOrderly(v) && (v.Body? ==> v.outcome.Success?)
  }

  /**
   What the steps below need of healthy states and of calm runs between them. They are kept
   abstract so that no proof looks into them.
   */
  datatype Way = Way(ok: System -> bool, can: (System, System) -> bool, allowed: Event -> bool)

  /** At least waiting is allowed. */
  ghost predicate IsWay(w: Workflow, way: Way) {
    && (forall a, b, c :: way.can(a, b) && way.can(b, c) ==> way.can(a, c))
    && (forall s :: way.ok(s) ==> way.can(s, s) && |s.jobs| == |s.broker.phases|)
    && (forall s {:trigger Healthy(w, s)} :: way.ok(s) ==> Healthy(w, s))
    && (forall v :: IsWait(v) ==> way.allowed(v))
    && (forall s, v {:trigger way.can(s, Step(w, s, v))} ::
          way.ok(s) && CanDo(s, v) && way.allowed(v) && Timely(Step(w, s, v).broker) ==>
            way.ok(Step(w, s, v)) && way.can(s, Step(w, s, v)))
  }

  /** The steps of executors are allowed too. */
  ghost predicate IsFullWay(w: Workflow, way: Way) {
    IsWay(w, way) && forall v :: Succeeds(v) ==> way.allowed(v)
  }

  /** The way of healthy states and calm runs. */
  ghost function CalmWay(w: Workflow, allowed: Event -> bool): Way {
    Way(s => Healthy(w, s), (a, b) => CanCalmly(w, allowed, a, b), allowed)
  }

  lemma CalmWayIsWay(w: Workflow, allowed: Event -> bool)
    requires forall v :: (IsWait(v) ==> allowed(v)) && (allowed(v) ==> IsOrderly(v))
    ensures IsWay(w, CalmWay(w, allowed))
  {
    var way := CalmWay(w, allowed);
    forall a, b, c | way.can(a, b) && way.can(b, c) ensures way.can(a, c) {
      CalmThen(w, allowed, a, b, c);
    }
    forall s | way.ok(s) ensures way.can(s, s) && |s.jobs| == |s.broker.phases| {
      CalmStay(w, allowed, s);
    }
    forall s, v | way.ok(s) && CanDo(s, v) && allowed(v) && Timely(Step(w, s, v).broker)
      ensures way.ok(Step(w, s, v)) && way.can(s, Step(w, s, v))
    {
      assert IsOrderly(v);
      StaysHealthy(w, s, v);
      SingleStep(w, allowed, s, v);
    }
  }

  lemma NextIsReady(w: Workflow, way: Way, s: System, e: nat)
    requires IsFullWay(w, way) && way.ok(s) && e < |s.jobs| && !BacksOff(s, e)
    requires !IsAtRest(s, e) || s.broker.lists.queue != []
    ensures CanDo(s, NextOf(s, e)) && way.allowed(NextOf(s, e)) && !s.broker.phases[e].Crashed? && FitsAt(s, e)
    ensures w.Valid() && Timely(s.broker)
  {
    assert Healthy(w, s);
    HealthyNext(w, s, e);
    NextSucceeds(s, e);
  }

  /** What executor e does next. */
  lemma NextStep(w: Workflow, way: Way, s: System, e: nat) returns (s': System)
    requires IsFullWay(w, way) && way.ok(s) && e < |s.jobs| && !BacksOff(s, e)
    requires !IsAtRest(s, e) || s.broker.lists.queue != []
    ensures e < |s.broker.phases| == |s.jobs|
    ensures CanDo(s, NextOf(s, e)) && s' == Step(w, s, NextOf(s, e))
    ensures way.can(s, s') && way.ok(s') && MovesOnly(s, s', e)
    ensures !IsAtRest(s, e) ==> Approaches(w, s, s', e)
  {
    NextIsReady(w, way, s, e);
    NextMoves(w, s, e);
    s' := Step(w, s, NextOf(s, e));
    assert way.can(s, Step(w, s, NextOf(s, e)));
  }

  /** What the first executor does next, named. */
  lemma FirstStep(w: Workflow, way: Way, s: System, v: Event) returns (s': System)
    requires IsFullWay(w, way) && way.ok(s) && |s.jobs| == |s.broker.phases| > 0 && !BacksOff(s, 0)
    requires (!IsAtRest(s, 0) || s.broker.lists.queue != []) && v == NextOf(s, 0)
    ensures CanDo(s, v) && s' == Step(w, s, v) && way.can(s, s') && way.ok(s') && MovesOnly(s, s', 0)
  {
    s' := NextStep(w, way, s, 0);
  }

  // ----- Letting time pass -----

  /** The same, up to when the lock was last renewed and is to be renewed next. */
  predicate SameWork(p: Phase, p': Phase) {
    p' == p || (p.Working? && p'.Working? && p'.task == p.task)
  }

  /** Only the clock and the renewals have moved on. */
  ghost predicate OnlyWaited(s: System, s': System) {
    && s' == s.(broker := s'.broker) && s'.broker.lists == s.broker.lists
    && |s'.broker.phases| == |s.broker.phases|
    && forall e :: 0 <= e < |s.broker.phases| ==> SameWork(s.broker.phases[e], s'.broker.phases[e])
  }

  predicate DueLater(b: Broker, e: nat) {
    e < |b.phases| && b.phases[e].Working? ==> b.now < b.phases[e].due
  }

  lemma OnlyWaitedThen(a: System, b: System, c: System)
    requires OnlyWaited(a, b) && OnlyWaited(b, c)
    ensures OnlyWaited(a, c)
  {
  }

  /** A timer that is due renews the lock. */
  lemma DueTimerRenews(w: Workflow, s: System, e: nat)
    requires Healthy(w, s) && e < |s.jobs| && !DueLater(s.broker, e)
    ensures var v := Protocol(TimerRenew(e, s.broker.now + INTERVAL));
            CanDo(s, v) && var s' := Step(w, s, v);
            && OnlyWaited(s, s') && s'.broker.now == s.broker.now && Timely(s'.broker)
            && DueLater(s'.broker, e) && forall f: nat :: f != e && DueLater(s.broker, f) ==> DueLater(s'.broker, f)
  {
    CoveredMeansExclusive(s.broker);
    assert WorksOn(s.broker, e, s.broker.phases[e].task);
  }

  lemma RenewOne(w: Workflow, way: Way, s: System, e: nat) returns (s': System)
    requires IsWay(w, way) && way.ok(s) && e < |s.jobs|
    ensures way.can(s, s') && way.ok(s') && OnlyWaited(s, s') && s'.broker.now == s.broker.now
    ensures DueLater(s'.broker, e) && forall f: nat :: DueLater(s.broker, f) ==> DueLater(s'.broker, f)
  {
    if DueLater(s.broker, e) {
      s' := s;
    } else {
      assert Healthy(w, s);
      DueTimerRenews(w, s, e);
      s' := Step(w, s, Protocol(TimerRenew(e, s.broker.now + INTERVAL)));
      assert way.can(s, Step(w, s, Protocol(TimerRenew(e, s.broker.now + INTERVAL))));
    }
  }

  lemma {:induction false} RenewFrom(w: Workflow, way: Way, s: System, k: nat) returns (s': System)
    requires IsWay(w, way) && way.ok(s) && k <= |s.jobs| == |s.broker.phases| && forall e: nat :: e < k ==> DueLater(s.broker, e)
    ensures way.can(s, s') && way.ok(s') && OnlyWaited(s, s') && s'.broker.now == s.broker.now
    ensures forall e: nat :: DueLater(s'.broker, e)
    decreases |s.jobs| - k
  {
    if k == |s.jobs| {
      s' := s;
    } else {
      var next := RenewOne(w, way, s, k);
      s' := RenewFrom(w, way, next, k + 1);
      OnlyWaitedThen(s, next, s');
    }
  }

  /** With no timer due, a millisecond passes. */
  lemma PassMillisecond(w: Workflow, way: Way, s: System) returns (s': System)
    requires IsWay(w, way) && way.ok(s) && forall e: nat :: DueLater(s.broker, e)
    ensures way.can(s, s') && way.ok(s') && OnlyWaited(s, s') && s'.broker.now == s.broker.now + 1
  {
    assert Healthy(w, s);
    s' := Step(w, s, Protocol(Tick(1)));
    assert s'.broker.phases == s.broker.phases;
    assert Timely(s'.broker) by {
      forall e | 0 <= e < |s.broker.phases| && s.broker.phases[e].Working?
        ensures s'.broker.now < s.broker.phases[e].due + (TTL - INTERVAL)
      {
        assert DueLater(s.broker, e);
      }
    }
    assert way.can(s, Step(w, s, Protocol(Tick(1))));
  }

  /** Time passes until `later`; every timer that falls due on the way renews its lock. */
  lemma {:induction false} WaitUntil(w: Workflow, way: Way, s: System, later: int) returns (s': System)
    requires IsWay(w, way) && way.ok(s) && s.broker.now <= later
    ensures way.can(s, s') && way.ok(s') && OnlyWaited(s, s') && s'.broker.now == later
    decreases later - s.broker.now
  {
    if s.broker.now == later {
      s' := s;
    } else {
      var renewed := RenewFrom(w, way, s, 0);
      var next := PassMillisecond(w, way, renewed);
      s' := WaitUntil(w, way, next, later);
      OnlyWaitedThen(s, renewed, next);
      OnlyWaitedThen(s, next, s');
    }
  }

  /** The backoff of an executor passes, if it is in one. */
  lemma OutlastBackoff(w: Workflow, way: Way, s: System, e: nat) returns (s': System)
    requires IsWay(w, way) && way.ok(s) && e < |s.jobs|
    ensures way.can(s, s') && way.ok(s') && OnlyWaited(s, s') && !BacksOff(s', e)
  {
    s' := s;
    if BacksOff(s, e) {
      s' := WaitUntil(w, way, s, s.jobs[e].until);
    }
  }

  // ----- Draining executors -----

  /** What the others do is the same, up to renewals. */
  ghost predicate LeavesOthers(s: System, s': System, e: nat) {
    && |s'.jobs| == |s.jobs| && |s'.broker.phases| == |s.broker.phases| && s'.roots == s.roots
    && forall f :: 0 <= f < |s.jobs| && f < |s.broker.phases| && f != e ==>
         s'.jobs[f] == s.jobs[f] && SameWork(s.broker.phases[f], s'.broker.phases[f])
  }

  /** Brought nearer to rest, by its own step and the time of a backoff. */
  ghost predicate Nears(w: Workflow, s: System, s': System, e: nat) {
    && e < |s.jobs| == |s.broker.phases| && LeavesOthers(s, s', e)
    && RankOf(w, s', e) < RankOf(w, s, e)
    && (Waits(s, e) || PendingIds(s'.status) <= PendingIds(s.status))
    && (Waits(s', e) ==> Waits(s, e))
  }

  lemma WaitedNears(w: Workflow, s: System, waited: System, s': System, e: nat)
    requires e < |s.jobs| == |s.broker.phases| && OnlyWaited(s, waited) && Approaches(w, waited, s', e)
    ensures Nears(w, s, s', e)
  {
  }

  lemma GoOn(w: Workflow, way: Way, s: System, e: nat) returns (s': System)
    requires IsFullWay(w, way) && way.ok(s) && e < |s.jobs| == |s.broker.phases| && !IsAtRest(s, e)
    ensures way.can(s, s') && way.ok(s') && Nears(w, s, s', e)
  {
    var waited := OutlastBackoff(w, way, s, e);
    s' := NextStep(w, way, waited, e);
    WaitedNears(w, s, waited, s', e);
  }

  lemma NearsThen(w: Workflow, s: System, next: System, s': System, e: nat)
    requires Nears(w, s, next, e) && LeavesOthers(next, s', e)
    requires Waits(next, e) || PendingIds(s'.status) <= PendingIds(next.status)
    ensures LeavesOthers(s, s', e) && (Waits(s, e) || PendingIds(s'.status) <= PendingIds(s.status))
  {
  }

  lemma {:induction false} Drain(w: Workflow, way: Way, s: System, e: nat) returns (s': System)
    requires IsFullWay(w, way) && way.ok(s) && e < |s.jobs| == |s.broker.phases|
    ensures way.can(s, s') && way.ok(s') && LeavesOthers(s, s', e) && IsAtRest(s', e)
    ensures Waits(s, e) || PendingIds(s'.status) <= PendingIds(s.status)
    decreases RankOf(w, s, e)
  {
    if IsAtRest(s, e) {
      s' := s;
    } else {
      var next := GoOn(w, way, s, e);
      s' := Drain(w, way, next, e);
      NearsThen(w, s, next, s', e);
    }
  }

  predicate AllAtRest(s: System) {
    forall e: nat :: e < |s.jobs| ==> IsAtRest(s, e)
  }

  lemma {:induction false} DrainFrom(w: Workflow, way: Way, s: System, k: nat) returns (s': System)
    requires IsFullWay(w, way) && way.ok(s) && k <= |s.jobs| && forall e: nat :: e < k ==> IsAtRest(s, e)
    ensures way.can(s, s') && way.ok(s') && AllAtRest(s') && |s'.jobs| == |s.jobs|
    decreases |s.jobs| - k
  {
    if k == |s.jobs| {
      s' := s;
    } else {
      var drained := Drain(w, way, s, k);
      forall e: nat | e < k + 1 ensures IsAtRest(drained, e) {
        assert e < k ==> IsAtRest(s, e);
      }
      s' := DrainFrom(w, way, drained, k + 1);
    }
  }

  lemma PushOneRoot(w: Workflow, way: Way, s: System) returns (s': System)
    requires IsFullWay(w, way) && way.ok(s) && s.roots != []
    ensures way.can(s, s') && way.ok(s')
    ensures s'.jobs == s.jobs && s'.broker.phases == s.broker.phases && s'.roots == s.roots[1..]
  {
    assert Healthy(w, s);
    s' := Step(w, s, PushRoot);
    assert way.can(s, Step(w, s, PushRoot));
  }

  lemma {:induction false} PushRoots(w: Workflow, way: Way, s: System) returns (s': System)
    requires IsFullWay(w, way) && way.ok(s) && AllAtRest(s)
    ensures way.can(s, s') && way.ok(s') && AllAtRest(s') && |s'.jobs| == |s.jobs| && s'.roots == []
    decreases |s.roots|
  {
    if s.roots == [] {
      s' := s;
    } else {
      var next := PushOneRoot(w, way, s);
      forall e: nat | e < |next.jobs| ensures IsAtRest(next, e) {
        assert IsAtRest(s, e);
      }
      s' := PushRoots(w, way, next);
    }
  }

  // ----- Working off the queue -----

  /** With everybody at rest time may pass until every lock has expired. */
  lemma LetLocksExpire(w: Workflow, way: Way, s: System) returns (s': System)
    requires IsFullWay(w, way) && way.ok(s) && AllAtRest(s)
    ensures way.can(s, s') && way.ok(s') && AllAtRest(s') && s'.jobs == s.jobs
    ensures s'.roots == s.roots && s'.status == s.status && s'.broker.lists == s.broker.lists
    ensures forall t :: !IsHeld(s'.broker.locks, s'.broker.now, t)
  {
    assert Healthy(w, s);
    s' := Step(w, s, Protocol(Tick(TTL)));
    assert s'.broker.phases == s.broker.phases && s'.jobs == s.jobs;
    forall e: nat | e < |s'.jobs| ensures IsAtRest(s', e) && !s'.broker.phases[e].Working? {
      assert IsAtRest(s, e);
    }
    assert way.can(s, Step(w, s, Protocol(Tick(TTL))));
  }

  lemma ClaimOldest(w: Workflow, way: Way, s: System) returns (s': System)
    requires IsFullWay(w, way) && way.ok(s) && |s.jobs| > 0 && IsAtRest(s, 0) && s.broker.lists.queue != []
    ensures way.can(s, s') && way.ok(s') && MovesOnly(s, s', 0) && |s'.broker.phases| > 0
    ensures s'.broker.phases[0].Popped? && s'.jobs[0].NoJob? && s'.status == s.status && s'.broker.locks == s.broker.locks
    ensures |s'.broker.lists.queue| == |s.broker.lists.queue| - 1
  {
    s' := NextStep(w, way, s, 0);
  }

  lemma LockFree(w: Workflow, way: Way, s: System) returns (s': System)
    requires IsFullWay(w, way) && way.ok(s) && |s.jobs| == |s.broker.phases| > 0
    requires s.broker.phases[0].Popped? && s.jobs[0].NoJob?
    requires forall t :: !IsHeld(s.broker.locks, s.broker.now, t)
    ensures way.can(s, s') && way.ok(s') && MovesOnly(s, s', 0)
    ensures s'.broker.phases[0].Working? && s'.jobs[0] == Fetching
    ensures s'.status == s.status && s'.broker.lists == s.broker.lists
  {
    s' := FirstStep(w, way, s, Protocol(TryLock(0)));
  }

  lemma ReadState(w: Workflow, way: Way, s: System) returns (s': System)
    requires IsFullWay(w, way) && way.ok(s) && |s.jobs| == |s.broker.phases| > 0
    requires s.broker.phases[0].Working? && s.jobs[0] == Fetching
    ensures way.can(s, s') && way.ok(s') && MovesOnly(s, s', 0)
    ensures WorksWith(s', 0) && s'.jobs[0].Fetched? && s'.jobs[0].status == s'.status[TaskOf(s', 0)]
    ensures s'.status == s.status && s'.broker.lists == s.broker.lists
  {
    s' := FirstStep(w, way, s, Fetch(0));
  }

  lemma MovesOnlyThen(a: System, b: System, c: System, e: nat)
    requires MovesOnly(a, b, e) && MovesOnly(b, c, e)
    ensures MovesOnly(a, c, e)
  {
  }

  lemma MovesThenLeaves(a: System, b: System, c: System, e: nat)
    requires MovesOnly(a, b, e) && LeavesOthers(b, c, e)
    ensures LeavesOthers(a, c, e)
  {
  }

  /** The first executor claims the oldest id, locks it and reads its state. */
  lemma TakeOldest(w: Workflow, way: Way, s: System) returns (s': System)
    requires IsFullWay(w, way) && way.ok(s) && |s.jobs| > 0 && IsAtRest(s, 0) && s.broker.lists.queue != []
    requires forall t :: !IsHeld(s.broker.locks, s.broker.now, t)
    ensures way.can(s, s') && way.ok(s') && MovesOnly(s, s', 0) && s'.status == s.status
    ensures WorksWith(s', 0) && s'.jobs[0].Fetched? && s'.jobs[0].status == s'.status[TaskOf(s', 0)]
    ensures |s'.broker.lists.queue| == |s.broker.lists.queue| - 1
  {
    var popped := ClaimOldest(w, way, s);
    var locked := LockFree(w, way, popped);
    s' := ReadState(w, way, locked);
    assert way.can(popped, s');
    MovesOnlyThen(popped, locked, s', 0);
    MovesOnlyThen(s, popped, s', 0);
  }

  lemma BeginPending(w: Workflow, way: Way, s: System) returns (s': System)
    requires IsFullWay(w, way) && way.ok(s) && WorksWith(s, 0) && s.jobs[0].Fetched? && s.jobs[0].status == Pending
    requires s.status[TaskOf(s, 0)] == Pending
    ensures way.can(s, s') && way.ok(s') && MovesOnly(s, s', 0) && s'.jobs[0].Started?
    ensures PendingIds(s'.status) < PendingIds(s.status)
  {
    s' := FirstStep(w, way, s, Begin(0));
    assert s'.status == s.status[TaskOf(s, 0) := Running];
    assert TaskOf(s, 0) in PendingIds(s.status) && TaskOf(s, 0) !in PendingIds(s'.status);
  }

  lemma RefuseOther(w: Workflow, way: Way, s: System) returns (s': System)
    requires IsFullWay(w, way) && way.ok(s) && WorksWith(s, 0) && s.jobs[0].Fetched? && s.jobs[0].status != Pending
    ensures way.can(s, s') && way.ok(s') && MovesOnly(s, s', 0)
    ensures WorksWith(s', 0) && s'.jobs[0] == Closing(ThenNothing)
    ensures s'.status == s.status && s'.broker.lists == s.broker.lists
  {
    TransitionsAreExact(s.jobs[0].status, Running, "", 0);
    s' := FirstStep(w, way, s, Begin(0));
  }

  lemma Unlock(w: Workflow, way: Way, s: System) returns (s': System)
    requires IsFullWay(w, way) && way.ok(s) && WorksWith(s, 0) && s.jobs[0] == Closing(ThenNothing)
    ensures way.can(s, s') && way.ok(s') && MovesOnly(s, s', 0)
    ensures s'.broker.phases[0].Unlocking? && s'.jobs[0] == Closing(ThenNothing)
    ensures s'.status == s.status && s'.broker.lists == s.broker.lists
  {
    s' := FirstStep(w, way, s, Protocol(ReleaseLock(0)));
  }

  lemma Unclaim(w: Workflow, way: Way, s: System) returns (s': System)
    requires IsFullWay(w, way) && way.ok(s) && |s.jobs| == |s.broker.phases| > 0
    requires s.broker.phases[0].Unlocking? && s.jobs[0] == Closing(ThenNothing)
    ensures way.can(s, s') && way.ok(s') && MovesOnly(s, s', 0) && IsAtRest(s', 0)
    ensures s'.status == s.status && s'.broker.lists.queue == s.broker.lists.queue
  {
    s' := FirstStep(w, way, s, Protocol(RemoveClaim(0)));
  }

  lemma GiveBack(w: Workflow, way: Way, s: System) returns (s': System)
    requires IsFullWay(w, way) && way.ok(s) && WorksWith(s, 0) && s.jobs[0].Fetched? && s.jobs[0].status != Pending
    ensures way.can(s, s') && way.ok(s') && MovesOnly(s, s', 0) && IsAtRest(s', 0)
    ensures s'.status == s.status && s'.broker.lists.queue == s.broker.lists.queue
  {
    var refused := RefuseOther(w, way, s);
    var unlocked := Unlock(w, way, refused);
    s' := Unclaim(w, way, unlocked);
    assert way.can(refused, s');
    MovesOnlyThen(refused, unlocked, s', 0);
    MovesOnlyThen(s, refused, s', 0);
  }

  /** A pending task becomes running, and then ends; any other task is only released. */
  lemma RunOldest(w: Workflow, way: Way, s: System) returns (s': System)
    requires IsFullWay(w, way) && way.ok(s)
    requires WorksWith(s, 0) && s.jobs[0].Fetched? && s.jobs[0].status == s.status[TaskOf(s, 0)]
    ensures way.can(s, s') && way.ok(s') && LeavesOthers(s, s', 0) && IsAtRest(s', 0)
    ensures PendingIds(s'.status) < PendingIds(s.status)
            || (s'.status == s.status && s'.broker.lists.queue == s.broker.lists.queue)
  {
    if s.jobs[0].status == Pending {
      var begun := BeginPending(w, way, s);
      s' := Drain(w, way, begun, 0);
      MovesThenLeaves(s, begun, s', 0);
    } else {
      s' := GiveBack(w, way, s);
    }
  }

  lemma RestIsQuiescent(s: System)
    requires AllAtRest(s) && |s.jobs| == |s.broker.phases| && s.roots == [] && s.broker.lists.queue == []
    ensures Quiescent(s)
  {
    forall p | p in s.broker.phases ensures p.Idle? {
      var e :| 0 <= e < |s.broker.phases| && s.broker.phases[e] == p;
      assert IsAtRest(s, e);
    }
    forall j | j in s.jobs ensures j.NoJob? {
      var e :| 0 <= e < |s.jobs| && s.jobs[e] == j;
      assert IsAtRest(s, e);
    }
  }

  /** One task from the queue: fewer tasks are pending, or the queue is shorter. */
  lemma WorkOffOne(w: Workflow, way: Way, s: System) returns (s': System)
    requires IsFullWay(w, way) && way.ok(s) && AllAtRest(s) && |s.jobs| > 0 && s.roots == [] && s.broker.lists.queue != []
    ensures way.can(s, s') && way.ok(s') && AllAtRest(s') && |s'.jobs| == |s.jobs| && s'.roots == []
    ensures PendingIds(s'.status) < PendingIds(s.status)
            || (s'.status == s.status && |s'.broker.lists.queue| < |s.broker.lists.queue|)
  {
    var free := LetLocksExpire(w, way, s);
    assert IsAtRest(free, 0);
    var taken := TakeOldest(w, way, free);
    s' := RunOldest(w, way, taken);
    assert way.can(free, s');
    MovesThenLeaves(free, taken, s', 0);
    forall e: nat | e < |s'.jobs| ensures IsAtRest(s', e) {
      assert IsAtRest(free, e);
    }
  }

  lemma {:induction false} WorkOff(w: Workflow, way: Way, s: System) returns (s': System)
    requires IsFullWay(w, way) && way.ok(s) && AllAtRest(s) && |s.jobs| > 0 && s.roots == []
    ensures way.can(s, s') && Quiescent(s')
    decreases PendingIds(s.status), |s.broker.lists.queue|
  {
    if s.broker.lists.queue == [] {
      RestIsQuiescent(s);
      s' := s;
    } else {
      var next := WorkOffOne(w, way, s);
      s' := WorkOff(w, way, next);
    }
  }

  lemma ReachedIsHealthy(w: Workflow, now: int, executors: nat, run: seq<Event>)
    requires w.Valid() && IsTimely(w, now, executors, run) && CrashFree(run)
    ensures var s := Reached(w, now, executors, run); Healthy(w, s) && |s.jobs| == executors
  {
    var begun := Begun(w, now, executors);
    BegunIsGood(w, now, executors);
    RunKeepsGood(w, begun, run);
    ExecutorsStay(w, begun, run);
    RunLetsLocksExpire(w, begun, run);
  }

  lemma WayToRest(w: Workflow, way: Way, s: System) returns (s': System)
    requires IsFullWay(w, way) && way.ok(s) && |s.jobs| > 0
    ensures way.can(s, s') && Quiescent(s')
  {
    var drained := DrainFrom(w, way, s, 0);
    var pushed := PushRoots(w, way, drained);
    s' := WorkOff(w, way, pushed);
    assert way.can(s, pushed);
  }

  /** Some timely run of allowed events leads on to a state with nothing left to do. */
  lemma RestIsNear(w: Workflow, s: System)
    requires Healthy(w, s) && |s.jobs| > 0
    ensures exists more :: IsCalm(w, Succeeds, s, more) && Quiescent(EndOf(w, s, more))
  {
    CalmWayIsWay(w, Succeeds);
    var rest := WayToRest(w, CalmWay(w, Succeeds), s);
    var more :| IsCalm(w, Succeeds, s, more) && EndOf(w, s, more) == rest;
  }

  /**
   From every state that a timely run without a crash has reached, under any interleaving, some
   timely run without a crash leads on to a state with nothing left to do. Every backoff takes its
   time in it, and no further body fails.
   */
  lemma RestIsWithinReach(w: Workflow, now: int, executors: nat, run: seq<Event>)
    requires w.Valid() && IsTimely(w, now, executors, run) && CrashFree(run) && executors > 0
    ensures exists more :: IsCalm(w, Succeeds, Reached(w, now, executors, run), more)
                           && Quiescent(EndOf(w, Reached(w, now, executors, run), more))
  {
    ReachedIsHealthy(w, now, executors, run);
    RestIsNear(w, Reached(w, now, executors, run));
  }

  lemma {:induction false} RunsJoin(w: Workflow, s: System, run: seq<Event>, more: seq<Event>)
    requires IsRunOf(w, s, run) && TimelyRunOf(w, s, run)
    requires IsRunOf(w, EndOf(w, s, run), more) && TimelyRunOf(w, EndOf(w, s, run), more)
    ensures IsRunOf(w, s, run + more) && TimelyRunOf(w, s, run + more)
    ensures EndOf(w, s, run + more) == EndOf(w, EndOf(w, s, run), more)
    decreases |run|
  {
    var all := run + more;
    if run == [] {
      assert all == more;
    } else {
      assert all[0] == run[0] && all[1..] == run[1..] + more;
      RunsJoin(w, Step(w, s, run[0]), run[1..], more);
    }
  }

  /** When every body has succeeded so far, the run can be continued so that in the end every task is completed. */
  lemma CompletionIsWithinReach(w: Workflow, now: int, executors: nat, run: seq<Event>)
    requires w.Valid() && DagValidator.Validation(w.tasks, w.edges) == []
    requires IsTimely(w, now, executors, run) && CrashFree(run) && AllSucceed(run) && executors > 0
    ensures exists more :: IsCalm(w, Succeeds, Reached(w, now, executors, run), more)
                           && IsComplete(w, EndOf(w, Reached(w, now, executors, run), more))
  {
    RestIsWithinReach(w, now, executors, run);
    var s := Reached(w, now, executors, run);
    var more :| IsCalm(w, Succeeds, s, more) && Quiescent(EndOf(w, s, more));
    RunsJoin(w, Begun(w, now, executors), run, more);
    SuccessCompletesEverything(w, now, executors, run + more);
  }

  // ----- No deadlock -----

  /** An executor that is neither at rest nor in a backoff. */
  predicate IsBusy(s: System, e: nat) {
    e < |s.jobs| && !IsAtRest(s, e) && !BacksOff(s, e)
  }

  /** What can be done now: a root can be enqueued, a busy executor can go on, or one at rest can claim. */
  ghost predicate SomethingToDo(s: System) {
    || s.roots != []
    || (exists e: nat :: IsBusy(s, e))
    || (s.broker.lists.queue != [] && exists e: nat :: IsAtRest(s, e))
  }

  lemma BackoffBlocks(w: Workflow, s: System, v: Event)
    requires Healthy(w, s) && CanDo(s, v) && IsAdvance(v) && s.roots == []
    ensures exists e: nat :: IsBusy(s, e) || (IsAtRest(s, e) && s.broker.lists.queue != [])
  {
    var e := if v.Protocol? then v.a.e else v.e;
    assert SafeJob(w, s.everDone, s.broker.phases[e], s.jobs[e]);
    CoveredMeansExclusive(s.broker);
    assert s.broker.phases[e].Working? ==> WorksOn(s.broker, e, s.broker.phases[e].task);
    assert IsBusy(s, e) || (IsAtRest(s, e) && s.broker.lists.queue != []);
  }

  lemma TaskAdvances(w: Workflow, s: System)
    requires Healthy(w, s) && SomethingToDo(s)
    ensures exists v :: CanDo(s, v) && IsAdvance(v)
  {
    if s.roots != [] {
      assert CanDo(s, PushRoot) && IsAdvance(PushRoot);
    } else {
      var e: nat :| e < |s.jobs| && (IsBusy(s, e) || (IsAtRest(s, e) && s.broker.lists.queue != []));
      HealthyNext(w, s, e);
    }
  }

  /** In a backoff an executor can only let time pass and renew; otherwise something can be done exactly when there is something to do. */
  lemma AdvancesExactly(w: Workflow, now: int, executors: nat, run: seq<Event>)
    requires w.Valid() && IsTimely(w, now, executors, run) && CrashFree(run)
    ensures var s := Reached(w, now, executors, run);
            (exists v :: CanDo(s, v) && IsAdvance(v)) <==> SomethingToDo(s)
  {
    ReachedIsHealthy(w, now, executors, run);
    var s := Reached(w, now, executors, run);
    if SomethingToDo(s) {
      TaskAdvances(w, s);
    }
    if v :| CanDo(s, v) && IsAdvance(v) {
      if s.roots == [] {
        BackoffBlocks(w, s, v);
      }
    }
  }

  lemma SomethingComesToBeDone(w: Workflow, way: Way, s: System) returns (s': System)
    requires IsWay(w, way) && way.ok(s) && |s.jobs| == |s.broker.phases| > 0 && !Quiescent(s)
    ensures way.can(s, s') && way.ok(s') && SomethingToDo(s')
  {
    if SomethingToDo(s) {
      s' := s;
    } else if e: nat :| BacksOff(s, e) {
      s' := OutlastBackoff(w, way, s, e);
      assert Healthy(w, s);
      assert SafeJob(w, s.everDone, s.broker.phases[e], s.jobs[e]);
      assert IsBusy(s', e);
    } else {
      forall e: nat | e < |s.jobs| ensures IsAtRest(s, e) {
        assert !IsBusy(s, e);
      }
      assert IsAtRest(s, 0);
      RestIsQuiescent(s);
      assert false;
    }
  }

  /** No deadlock: while something is left to do, some timely run of clock and renewals ends where an executor can advance. */
  lemma SomethingCanAdvance(w: Workflow, now: int, executors: nat, run: seq<Event>)
    requires w.Valid() && IsTimely(w, now, executors, run) && CrashFree(run) && executors > 0
    requires !Quiescent(Reached(w, now, executors, run))
    ensures exists wait, v ::
              IsCalm(w, IsWait, Reached(w, now, executors, run), wait)
              && CanDo(EndOf(w, Reached(w, now, executors, run), wait), v) && IsAdvance(v)
  {
    var s := Reached(w, now, executors, run);
    ReachedIsHealthy(w, now, executors, run);
    CalmWayIsWay(w, IsWait);
    var s' := SomethingComesToBeDone(w, CalmWay(w, IsWait), s);
    var wait :| IsCalm(w, IsWait, s, wait) && EndOf(w, s, wait) == s';
    TaskAdvances(w, s');
    var v :| CanDo(s', v) && IsAdvance(v);
  }
}
