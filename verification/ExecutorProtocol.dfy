/**
 Any number of executors over the shared lists and locks, interleaved at every Redis call
 (task-claimer.ts with task-queue.ts and lock-manager.ts, and the lock renewals of
 retry-handler.ts). Executors are numbered, so their ids differ. The clock moves on its own.
 */
module ExecutorProtocol {
  import opened Types
  import opened Sequences
  import opened TaskQueues
  import opened LockManagers

  const TTL: int := DEFAULT_TTL_MS
  const INTERVAL: int := 10000

  /** Where an executor is in the polling loop of `TaskClaimer.start`. */
  datatype Phase =
    | Idle
    | Popped(task: Id)
    | Denied(task: Id)
    | Holding(task: Id)
    // `currentTask` is set. `start` is the time of the last successful acquire or renew;
    // `due` is when the renewal timer fires next; `aborted` also means that it is off.
    | Working(task: Id, start: int, due: int, aborted: bool)
    | Unlocking(task: Id)
    | Crashed

  /**
   The shared state, with a record of what became of every id: `enqueued` from outside,
   `removed` by releaseCurrentTask, `abandoned` in the processing list by a crash or by
   clearCurrentTask, and `lost` by a crash between the two halves of a requeue.
   */
  datatype Broker = Broker(
    now: int, lists: Lists, locks: Locks<nat>, phases: seq<Phase>,
    enqueued: multiset<Id>, removed: multiset<Id>, abandoned: multiset<Id>, lost: multiset<Id>)

  datatype Action =
    | Tick(ms: nat)
    | Enqueue(task: Id)
    | Claim(e: nat)
    | TryLock(e: nat)
    | RequeueRemove(e: nat)
    | RequeuePush(e: nat)
    | TimerRenew(e: nat, next: int)
    | WaitRenew(e: nat)
    | ReleaseLock(e: nat)
    | RemoveClaim(e: nat)
    | Clear(e: nat)
    | Crash(e: nat)

  predicate Enabled(b: Broker, a: Action) {
    match a
    case Tick(_) => true
    case Enqueue(_) => true
    case Claim(e) => e < |b.phases| && b.phases[e].Idle? && b.lists.queue != []
    case TryLock(e) => e < |b.phases| && b.phases[e].Popped?
    case RequeueRemove(e) => e < |b.phases| && b.phases[e].Denied?
    case RequeuePush(e) => e < |b.phases| && b.phases[e].Holding?
    case TimerRenew(e, next) =>
      e < |b.phases| && b.phases[e].Working? && !b.phases[e].aborted && b.phases[e].due <= b.now
      && next <= b.now + INTERVAL
    case WaitRenew(e) => e < |b.phases| && b.phases[e].Working? && !b.phases[e].aborted
    case ReleaseLock(e) => e < |b.phases| && b.phases[e].Working?
    case RemoveClaim(e) => e < |b.phases| && b.phases[e].Unlocking?
    case Clear(e) => e < |b.phases| && b.phases[e].Working? && b.phases[e].aborted
    case Crash(e) => e < |b.phases| && !b.phases[e].Crashed?
  }

  function With(b: Broker, e: nat, p: Phase): Broker
    requires e < |b.phases|
  {
    b.(phases := b.phases[e := p])
  }

  /** What an executor that stops here leaves behind in the processing list. */
  function ClaimOf(p: Phase): multiset<Id> {
    match p
    case Popped(t) => multiset{t}
    case Denied(t) => multiset{t}
    case Working(t, _, _, _) => multiset{t}
    case Unlocking(t) => multiset{t}
    case _ => multiset{}
  }

  function HeldBy(p: Phase): multiset<Id> {
    if p.Holding? then multiset{p.task} else multiset{}
  }

  function Apply(b: Broker, a: Action): Broker
    requires Enabled(b, a)
  {
    match a
    case Tick(ms) => b.(now := b.now + ms)
    case Enqueue(t) => b.(lists := Do(b.lists, Push(t)), enqueued := b.enqueued + multiset{t})
    case Claim(e) =>
      var (lists, result) := Brpoplpush(b.lists);
      With(b.(lists := lists), e, Popped(result.value))
    case TryLock(e) =>
      var t := b.phases[e].task;
      var (locks, acquired) := Acquire(b.locks, b.now, t, e, TTL);
      With(b.(locks := locks), e, if acquired then Working(t, b.now, b.now + INTERVAL, false) else Denied(t))
    case RequeueRemove(e) =>
      var t := b.phases[e].task;
      With(b.(lists := Do(b.lists, Remove(t))), e, Holding(t))
    case RequeuePush(e) =>
      With(b.(lists := Do(b.lists, Push(b.phases[e].task))), e, Idle)
    case TimerRenew(e, next) =>
      var p := b.phases[e];
      var (locks, renewed) := Renew(b.locks, b.now, p.task, e, TTL);
      With(b.(locks := locks), e, if renewed then p.(start := b.now, due := next) else p.(aborted := true))
    case WaitRenew(e) =>
      var p := b.phases[e];
      var (locks, renewed) := Renew(b.locks, b.now, p.task, e, TTL);
      if renewed then With(b.(locks := locks), e, p.(start := b.now)) else b
    case ReleaseLock(e) =>
      var t := b.phases[e].task;
      With(b.(locks := Release(b.locks, b.now, t, e).0), e, Unlocking(t))
    case RemoveClaim(e) =>
      var t := b.phases[e].task;
      With(b.(lists := Do(b.lists, Remove(t)), removed := b.removed + multiset{t}), e, Idle)
    case Clear(e) =>
      With(b.(abandoned := b.abandoned + multiset{b.phases[e].task}), e, Idle)
    case Crash(e) =>
      var p := b.phases[e];
      With(b.(abandoned := b.abandoned + ClaimOf(p), lost := b.lost + HeldBy(p)), e, Crashed)
  }

  function Start(now: int, executors: nat): Broker {
    Broker(now, Lists([], []), map[], seq(executors, _ => Idle), multiset{}, multiset{}, multiset{}, multiset{})
  }

  /** A run: every action is possible where it happens. */
  predicate IsRun(b: Broker, run: seq<Action>)
    decreases |run|
  {
    run != [] ==> Enabled(b, run[0]) && IsRun(Apply(b, run[0]), run[1..])
  }

  function Final(b: Broker, run: seq<Action>): Broker
    requires IsRun(b, run)
    decreases |run|
  {
    if run == [] then b else Final(Apply(b, run[0]), run[1..])
  }

  // ----- Leases -----

  predicate Leases(b: Broker, e: nat, t: Id) {
    e < |b.phases| && b.phases[e].Working? && b.phases[e].task == t && b.now < b.phases[e].start + TTL
  }

  /** An executor whose last acquire or renew is younger than the TTL is the owner in Redis. */
  predicate LeaseHolds(b: Broker, e: nat)
    requires e < |b.phases|
  {
    var p := b.phases[e];
    p.Working? ==>
      && p.start <= b.now
      && (b.now < p.start + TTL ==> p.task in b.locks && b.locks[p.task] == Lock(e, p.start + TTL))
  }

  predicate AllLeasesHold(b: Broker) {
    forall e :: 0 <= e < |b.phases| ==> LeaseHolds(b, e)
  }

  lemma LeaseStep(b: Broker, a: Action)
    requires Enabled(b, a) && AllLeasesHold(b)
    ensures AllLeasesHold(Apply(b, a))
  {
    var b' := Apply(b, a);
    forall e | 0 <= e < |b'.phases| ensures LeaseHolds(b', e) {
      assert LeaseHolds(b, e);
    }
  }

  lemma {:induction false} LeasesAlwaysHold(b: Broker, run: seq<Action>)
    requires AllLeasesHold(b) && IsRun(b, run)
    ensures AllLeasesHold(Final(b, run))
    decreases |run|
  {
    if run != [] {
      LeaseStep(b, run[0]);
      LeasesAlwaysHold(Apply(b, run[0]), run[1..]);
    }
  }

  /** In every reachable state a lease means ownership, and no two executors lease the same task. */
  lemma LeaseExclusion(now: int, executors: nat, run: seq<Action>)
    requires IsRun(Start(now, executors), run)
    ensures var b := Final(Start(now, executors), run);
            && (forall e: nat, t :: Leases(b, e, t) ==> Owns(b.locks, b.now, t, e))
            && (forall e: nat, f: nat, t :: Leases(b, e, t) && Leases(b, f, t) ==> e == f)
  {
    LeasesAlwaysHold(Start(now, executors), run);
    var b := Final(Start(now, executors), run);
    forall e: nat, t | Leases(b, e, t) ensures Owns(b.locks, b.now, t, e) {
      assert LeaseHolds(b, e);
    }
    forall e: nat, f: nat, t | Leases(b, e, t) && Leases(b, f, t) ensures e == f {
      assert Owns(b.locks, b.now, t, e) && Owns(b.locks, b.now, t, f);
    }
  }

  // ----- Timely renewals -----

  /** No renewal is late by TTL - INTERVAL or more. */
  predicate Timely(b: Broker) {
    forall e :: 0 <= e < |b.phases| && b.phases[e].Working? && !b.phases[e].aborted ==>
      b.now < b.phases[e].due + (TTL - INTERVAL)
  }

  /** The lock lasts 30 seconds and is renewed every 10, which leaves a renewal less than 20 seconds. */
  lemma TimelyTold(b: Broker)
    ensures Timely(b) <==>
              forall e :: 0 <= e < |b.phases| && b.phases[e].Working? && !b.phases[e].aborted ==>
                b.now < b.phases[e].due + 20000
  {
  }

  predicate TimelyRun(b: Broker, run: seq<Action>)
    requires IsRun(b, run)
    decreases |run|
  {
    Timely(b) && (run != [] ==> TimelyRun(Apply(b, run[0]), run[1..]))
  }

  /** While renewals are timely the timer is never ahead of the lease, and nobody is aborted. */
  predicate Covered(b: Broker) {
    && AllLeasesHold(b)
    && forall e :: 0 <= e < |b.phases| && b.phases[e].Working? ==>
         !b.phases[e].aborted && b.phases[e].due <= b.phases[e].start + INTERVAL
  }

  lemma CoveredStep(b: Broker, a: Action)
    requires Enabled(b, a) && Timely(b) && Covered(b)
    ensures Covered(Apply(b, a))
  {
    LeaseStep(b, a);
    if a.TimerRenew? || a.WaitRenew? {
      assert LeaseHolds(b, a.e);
    }
  }

  predicate WorksOn(b: Broker, e: nat, t: Id) {
    e < |b.phases| && b.phases[e].Working? && b.phases[e].task == t
  }

  lemma CoveredMeansExclusive(b: Broker)
    requires Timely(b) && Covered(b)
    ensures forall e: nat, t :: WorksOn(b, e, t) ==> Leases(b, e, t) && Owns(b.locks, b.now, t, e)
    ensures forall e: nat, f: nat, t :: WorksOn(b, e, t) && WorksOn(b, f, t) ==> e == f
  {
    forall e: nat, t | WorksOn(b, e, t) ensures Leases(b, e, t) && Owns(b.locks, b.now, t, e) {
      assert LeaseHolds(b, e);
    }
  }

  lemma {:induction false} CoveredAlways(b: Broker, run: seq<Action>)
    requires Covered(b) && IsRun(b, run) && TimelyRun(b, run)
    ensures Covered(Final(b, run)) && Timely(Final(b, run))
    decreases |run|
  {
    if run != [] {
      CoveredStep(b, run[0]);
      CoveredAlways(Apply(b, run[0]), run[1..]);
    }
  }

  /** With timely renewals the lease covers the whole run and retry wait: at most one executor works on a task. */
  lemma TimelyExclusion(now: int, executors: nat, run: seq<Action>)
    requires IsRun(Start(now, executors), run) && TimelyRun(Start(now, executors), run)
    ensures var b := Final(Start(now, executors), run);
            && (forall e: nat, t :: WorksOn(b, e, t) ==> !b.phases[e].aborted && Owns(b.locks, b.now, t, e))
            && (forall e: nat, f: nat, t :: WorksOn(b, e, t) && WorksOn(b, f, t) ==> e == f)
  {
    CoveredAlways(Start(now, executors), run);
    CoveredMeansExclusive(Final(Start(now, executors), run));
  }

  // ----- Conservation -----

  function Count(list: seq<Id>, x: Id): nat {
    multiset(list)[x]
  }

  function SumClaims(phases: seq<Phase>, x: Id): nat {
    if phases == [] then 0 else ClaimOf(phases[0])[x] + SumClaims(phases[1..], x)
  }

  function SumHeld(phases: seq<Phase>, x: Id): nat {
    if phases == [] then 0 else HeldBy(phases[0])[x] + SumHeld(phases[1..], x)
  }

  lemma {:induction false} SumClaimsUpdate(phases: seq<Phase>, e: nat, p: Phase, x: Id)
    requires e < |phases|
    ensures SumClaims(phases[e := p], x) + ClaimOf(phases[e])[x] == SumClaims(phases, x) + ClaimOf(p)[x]
    ensures ClaimOf(phases[e])[x] <= SumClaims(phases, x)
    decreases |phases|
  {
    var phases', tail := phases[e := p], phases[1..];
    if e == 0 {
      assert phases'[1..] == tail;
    } else {
      SumClaimsUpdate(tail, e - 1, p, x);
      assert phases'[0] == phases[0] && phases'[1..] == tail[e - 1 := p];
    }
  }

  lemma {:induction false} SumHeldUpdate(phases: seq<Phase>, e: nat, p: Phase, x: Id)
    requires e < |phases|
    ensures SumHeld(phases[e := p], x) + HeldBy(phases[e])[x] == SumHeld(phases, x) + HeldBy(p)[x]
    decreases |phases|
  {
    var phases', tail := phases[e := p], phases[1..];
    if e == 0 {
      assert phases'[1..] == tail;
    } else {
      SumHeldUpdate(tail, e - 1, p, x);
      assert phases'[0] == phases[0] && phases'[1..] == tail[e - 1 := p];
    }
  }

  lemma SumUpdate(phases: seq<Phase>, e: nat, p: Phase, x: Id)
    requires e < |phases|
    ensures SumClaims(phases[e := p], x) + ClaimOf(phases[e])[x] == SumClaims(phases, x) + ClaimOf(p)[x]
    ensures SumHeld(phases[e := p], x) + HeldBy(phases[e])[x] == SumHeld(phases, x) + HeldBy(p)[x]
    ensures ClaimOf(phases[e])[x] <= SumClaims(phases, x)
  {
    SumClaimsUpdate(phases, e, p, x);
    SumHeldUpdate(phases, e, p, x);
  }

  ghost predicate Conserved(b: Broker, x: Id) {
    && Count(b.lists.processing, x) == SumClaims(b.phases, x) + b.abandoned[x]
    && b.enqueued[x] == Count(b.lists.queue, x) + Count(b.lists.processing, x)
                        + SumHeld(b.phases, x) + b.removed[x] + b.lost[x]
  }

  lemma PushCounts(list: seq<Id>, t: Id, x: Id)
    ensures Count(Lpush(list, t), x) == Count(list, x) + (if t == x then 1 else 0)
  {
  }

  lemma PopCounts(l: Lists, x: Id)
    requires l.queue != []
    ensures var (l', t) := Brpoplpush(l);
            && t.Some?
            && Count(l'.queue, x) + (if t.value == x then 1 else 0) == Count(l.queue, x)
            && Count(l'.processing, x) == Count(l.processing, x) + (if t.value == x then 1 else 0)
  {
    assert l.queue == l.queue[..|l.queue| - 1] + [l.queue[|l.queue| - 1]];
  }

  lemma RemoveCounts(list: seq<Id>, t: Id, x: Id)
    requires Count(list, t) > 0
    ensures Count(list, x) == Count(Lrem(list, t), x) + (if t == x then 1 else 0)
  {
    LremTakesOne(list, t);
    assert multiset(Lrem(list, t))[x] == (multiset(list) - multiset{t})[x];
  }

  /** Every `lrem` finds its copy. */
  lemma ClaimsAreListed(b: Broker, e: nat)
    requires e < |b.phases| && (b.phases[e].Denied? || b.phases[e].Unlocking?)
    requires Conserved(b, b.phases[e].task)
    ensures Count(b.lists.processing, b.phases[e].task) > 0
  {
    SumUpdate(b.phases, e, Idle, b.phases[e].task);
  }

  /** What one executor gives up and takes on, against the change of the lists and records. */
  ghost predicate Balances(b: Broker, b': Broker, p: Phase, p': Phase, x: Id) {
    && b'.enqueued[x] == b.enqueued[x]
    && Count(b'.lists.processing, x) + ClaimOf(p)[x] + b.abandoned[x]
       == Count(b.lists.processing, x) + ClaimOf(p')[x] + b'.abandoned[x]
    && HeldBy(p)[x] + Count(b.lists.queue, x) + Count(b.lists.processing, x) + b.removed[x] + b.lost[x]
       == HeldBy(p')[x] + Count(b'.lists.queue, x) + Count(b'.lists.processing, x) + b'.removed[x] + b'.lost[x]
  }

  lemma BalancedStep(b: Broker, b': Broker, e: nat, p': Phase, x: Id)
    requires Conserved(b, x) && e < |b.phases| && b'.phases == b.phases[e := p']
    requires Balances(b, b', b.phases[e], p', x)
    ensures Conserved(b', x)
  {
    SumUpdate(b.phases, e, p', x);
  }

  /** A step that only moves an executor to a phase with the same claim. */
  lemma LocalStep(b: Broker, b': Broker, e: nat, p': Phase, x: Id)
    requires Conserved(b, x) && e < |b.phases| && b'.phases == b.phases[e := p']
    requires b'.lists == b.lists && b'.enqueued == b.enqueued
    requires b'.removed == b.removed && b'.abandoned == b.abandoned && b'.lost == b.lost
    requires ClaimOf(p') == ClaimOf(b.phases[e]) && HeldBy(p') == HeldBy(b.phases[e])
    ensures Conserved(b', x)
  {
    SumUpdate(b.phases, e, p', x);
  }

  /** A step that takes the executor's claim out of the processing list. */
  lemma RemovalStep(b: Broker, b': Broker, e: nat, p': Phase, x: Id)
    requires Conserved(b, x) && e < |b.phases| && (b.phases[e].Denied? || b.phases[e].Unlocking?)
    requires b'.phases == b.phases[e := p'] && b'.enqueued == b.enqueued && b'.lists.queue == b.lists.queue
    requires var one := if b.phases[e].task == x then 1 else 0;
             && Count(b.lists.processing, x) == Count(b'.lists.processing, x) + one
             && ClaimOf(p')[x] == 0
             && HeldBy(p')[x] + b'.removed[x] == b.removed[x] + one
             && b'.abandoned == b.abandoned && b'.lost == b.lost
    ensures Conserved(b', x)
  {
    SumUpdate(b.phases, e, p', x);
  }

  lemma RequeueRemoveConserves(b: Broker, e: nat, x: Id)
    requires Enabled(b, RequeueRemove(e)) && Conserved(b, x)
             && Count(b.lists.processing, b.phases[e].task) > 0
    ensures Conserved(Apply(b, RequeueRemove(e)), x)
  {
    RemoveCounts(b.lists.processing, b.phases[e].task, x);
    RemovalStep(b, Apply(b, RequeueRemove(e)), e, Holding(b.phases[e].task), x);
  }

  lemma RemoveClaimConserves(b: Broker, e: nat, x: Id)
    requires Enabled(b, RemoveClaim(e)) && Conserved(b, x)
             && Count(b.lists.processing, b.phases[e].task) > 0
    ensures Conserved(Apply(b, RemoveClaim(e)), x)
  {
    RemoveCounts(b.lists.processing, b.phases[e].task, x);
    RemovalStep(b, Apply(b, RemoveClaim(e)), e, Idle, x);
  }

  lemma ClaimConserves(b: Broker, e: nat, x: Id)
    requires Enabled(b, Action.Claim(e)) && Conserved(b, x)
    ensures Conserved(Apply(b, Action.Claim(e)), x)
  {
    PopCounts(b.lists, x);
    BalancedStep(b, Apply(b, Action.Claim(e)), e, Popped(Brpoplpush(b.lists).1.value), x);
  }

  /** A step that puts the id an executor holds back on the queue. */
  lemma ReturnStep(b: Broker, b': Broker, e: nat, x: Id)
    requires Conserved(b, x) && e < |b.phases| && b.phases[e].Holding? && b'.phases == b.phases[e := Idle]
    requires Count(b'.lists.queue, x) == Count(b.lists.queue, x) + (if b.phases[e].task == x then 1 else 0)
    requires b'.lists.processing == b.lists.processing && b'.enqueued == b.enqueued
    requires b'.removed == b.removed && b'.abandoned == b.abandoned && b'.lost == b.lost
    ensures Conserved(b', x)
  {
    SumUpdate(b.phases, e, Idle, x);
  }

  lemma RequeuePushConserves(b: Broker, e: nat, x: Id)
    requires Enabled(b, RequeuePush(e)) && Conserved(b, x)
    ensures Conserved(Apply(b, RequeuePush(e)), x)
  {
    PushCounts(b.lists.queue, b.phases[e].task, x);
    ReturnStep(b, Apply(b, RequeuePush(e)), e, x);
  }

  lemma TryLockMoves(b: Broker, e: nat) returns (p': Phase)
    requires Enabled(b, TryLock(e))
    ensures p'.Denied? || p'.Working?
    ensures p'.task == b.phases[e].task
    ensures var b' := Apply(b, TryLock(e));
            && b'.phases == b.phases[e := p'] && b'.lists == b.lists && b'.enqueued == b.enqueued
            && b'.removed == b.removed && b'.abandoned == b.abandoned && b'.lost == b.lost
  {
    p' := Apply(b, TryLock(e)).phases[e];
  }

  lemma TryLockConserves(b: Broker, e: nat, x: Id)
    requires Enabled(b, TryLock(e)) && Conserved(b, x)
    ensures Conserved(Apply(b, TryLock(e)), x)
  {
    var p' := TryLockMoves(b, e);
    LocalStep(b, Apply(b, TryLock(e)), e, p', x);
  }

  lemma WaitRenewConserves(b: Broker, e: nat, x: Id)
    requires Enabled(b, WaitRenew(e)) && Conserved(b, x)
    ensures Conserved(Apply(b, WaitRenew(e)), x)
  {
    if Owns(b.locks, b.now, b.phases[e].task, e) {
      LocalStep(b, Apply(b, WaitRenew(e)), e, b.phases[e].(start := b.now), x);
    }
  }

  lemma ReleaseLockConserves(b: Broker, e: nat, x: Id)
    requires Enabled(b, ReleaseLock(e)) && Conserved(b, x)
    ensures Conserved(Apply(b, ReleaseLock(e)), x)
  {
    LocalStep(b, Apply(b, ReleaseLock(e)), e, Unlocking(b.phases[e].task), x);
  }

  lemma TimerRenewConserves(b: Broker, e: nat, next: int, x: Id)
    requires Enabled(b, TimerRenew(e, next)) && Conserved(b, x)
    ensures Conserved(Apply(b, TimerRenew(e, next)), x)
  {
    LocalStep(b, Apply(b, TimerRenew(e, next)), e, Apply(b, TimerRenew(e, next)).phases[e], x);
  }

  lemma ClearConserves(b: Broker, e: nat, x: Id)
    requires Enabled(b, Clear(e)) && Conserved(b, x)
    ensures Conserved(Apply(b, Clear(e)), x)
  {
    BalancedStep(b, Apply(b, Clear(e)), e, Idle, x);
  }

  lemma CrashConserves(b: Broker, e: nat, x: Id)
    requires Enabled(b, Crash(e)) && Conserved(b, x)
    ensures Conserved(Apply(b, Crash(e)), x)
  {
    BalancedStep(b, Apply(b, Crash(e)), e, Crashed, x);
  }

  lemma ConservedStep(b: Broker, a: Action, x: Id)
    requires Enabled(b, a) && Conserved(b, x)
    requires a.RequeueRemove? || a.RemoveClaim? ==> Count(b.lists.processing, b.phases[a.e].task) > 0
    ensures Conserved(Apply(b, a), x)
  {
    match a
    case Tick(_) =>
    case Enqueue(t) => PushCounts(b.lists.queue, t, x);
    case Claim(e) => ClaimConserves(b, e, x);
    case TryLock(e) => TryLockConserves(b, e, x);
    case RequeueRemove(e) => RequeueRemoveConserves(b, e, x);
    case RequeuePush(e) => RequeuePushConserves(b, e, x);
    case TimerRenew(e, next) => TimerRenewConserves(b, e, next, x);
    case WaitRenew(e) => WaitRenewConserves(b, e, x);
    case ReleaseLock(e) => ReleaseLockConserves(b, e, x);
    case RemoveClaim(e) => RemoveClaimConserves(b, e, x);
    case Clear(e) => ClearConserves(b, e, x);
    case Crash(e) => CrashConserves(b, e, x);
  }

  lemma {:induction false} ConservedAlways(b: Broker, run: seq<Action>)
    requires (forall x :: Conserved(b, x)) && IsRun(b, run)
    ensures forall x :: Conserved(Final(b, run), x)
    decreases |run|
  {
    if run != [] {
      var a := run[0];
      if a.RequeueRemove? || a.RemoveClaim? {
        ClaimsAreListed(b, a.e);
      }
      forall x ensures Conserved(Apply(b, a), x) {
        ConservedStep(b, a, x);
      }
      ConservedAlways(Apply(b, a), run[1..]);
    }
  }

  lemma {:induction false} SumOfIdle(phases: seq<Phase>, x: Id)
    requires forall e :: 0 <= e < |phases| ==> phases[e].Idle?
    ensures SumClaims(phases, x) == 0 && SumHeld(phases, x) == 0
    decreases |phases|
  {
    if phases != [] {
      SumOfIdle(phases[1..], x);
    }
  }

  /**
   For each id, under every interleaving: enqueues equal the copies queued, in processing, held
   between the halves of a requeue, removed by release, or lost by a crash while held; and the
   copies in processing are the outstanding claims plus the abandoned ones. So every `lrem`
   finds its copy.
   */
  lemma Conservation(now: int, executors: nat, run: seq<Action>)
    requires IsRun(Start(now, executors), run)
    ensures var b := Final(Start(now, executors), run);
            && (forall x :: Conserved(b, x))
            && (forall e :: 0 <= e < |b.phases| && (b.phases[e].Denied? || b.phases[e].Unlocking?) ==>
                  b.phases[e].task in b.lists.processing)
  {
    var b := Final(Start(now, executors), run);
    forall x ensures Conserved(Start(now, executors), x) {
      SumOfIdle(Start(now, executors).phases, x);
    }
    ConservedAlways(Start(now, executors), run);
    forall e | 0 <= e < |b.phases| && (b.phases[e].Denied? || b.phases[e].Unlocking?)
      ensures b.phases[e].task in b.lists.processing
    {
      ClaimsAreListed(b, e);
    }
  }

  // ----- The lists are driven by Redis commands, so the queue is first in, first out -----

  function CommandsOf(b: Broker, a: Action): seq<Command>
    requires Enabled(b, a)
  {
    match a
    case Enqueue(t) => [Push(t)]
    case Claim(_) => [Command.Claim]
    case RequeueRemove(e) => [Remove(b.phases[e].task)]
    case RequeuePush(e) => [Push(b.phases[e].task)]
    case RemoveClaim(e) => [Remove(b.phases[e].task)]
    case _ => []
  }

  function AllCommands(b: Broker, run: seq<Action>): seq<Command>
    requires IsRun(b, run)
    decreases |run|
  {
    if run == [] then [] else CommandsOf(b, run[0]) + AllCommands(Apply(b, run[0]), run[1..])
  }

  lemma {:induction false} CommandsDriveLists(b: Broker, run: seq<Action>)
    requires IsRun(b, run)
    ensures Final(b, run).lists == After(b.lists, AllCommands(b, run))
    decreases |run|
  {
    if run != [] {
      var first, rest := CommandsOf(b, run[0]), AllCommands(Apply(b, run[0]), run[1..]);
      CommandsDriveLists(Apply(b, run[0]), run[1..]);
      if first == [] {
        assert first + rest == rest;
      } else {
        assert (first + rest)[0] == first[0] && (first + rest)[1..] == rest;
      }
    }
  }

  lemma ProtocolIsFirstInFirstOut(now: int, executors: nat, run: seq<Action>)
    requires IsRun(Start(now, executors), run)
    ensures var b := Start(now, executors);
            var commands := AllCommands(b, run);
            Pushed(commands) == Claimed(Lists([], []), commands) + Reverse(Final(b, run).lists.queue)
  {
    CommandsDriveLists(Start(now, executors), run);
    FirstInFirstOut(AllCommands(Start(now, executors), run));
  }
}
