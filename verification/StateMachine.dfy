/** Task status transitions (packages/shared/src/state-machine/state-machine.ts). */
module StateMachine {
  import opened Types

  /** The messages are left out; the timestamp of the audit entry is the parameter `now`. */
  datatype Transition =
    | Accepted(taskId: Id, previousState: Status, newState: Status, timestamp: int)
    | Rejected(taskId: Id, currentState: Status, attemptedState: Status)

  predicate IsTerminalState(s: Status) {
    s in {Completed, Failed, Cancelled, TimedOut}
  }

  const VALID_TRANSITIONS: map<Status, set<Status>> := map[
    Pending := {Running, Cancelled},
    Running := {Completed, Failed, Cancelled, TimedOut}]

  function Transit(current: Status, target: Status, taskId: Id, now: int): Transition {
    if IsTerminalState(current) then Rejected(taskId, current, target)
    else if current !in VALID_TRANSITIONS || target !in VALID_TRANSITIONS[current] then
      Rejected(taskId, current, target)
    else Accepted(taskId, current, target, now)
  }

  predicate CanTransit(current: Status, target: Status) {
    Transit(current, target, "", 0).Accepted?
  }

  /** A history in which every change was accepted. */
  ghost predicate IsHistory(h: seq<Status>) {
    forall i, j :: 0 <= i < j < |h| && j == i + 1 ==> CanTransit(h[i], h[j])
  }

  /**
   Whatever was requested, a task changes at most twice; terminal statuses, and also skipped,
   which is not in the terminal set, end its history; and only a running task completes, fails
   or times out.
   */
  lemma HistoriesAreShort(h: seq<Status>)
    requires IsHistory(h) && h != []
    ensures |h| <= 3
    ensures |h| == 3 ==> h[0] == Pending && h[1] == Running
    ensures forall i :: 0 <= i < |h| - 1 ==> !IsTerminalState(h[i]) && h[i] != Skipped
    ensures forall i, j :: 0 <= i < j < |h| ==> h[i] != h[j]
    ensures forall i :: 0 < i < |h| && h[i] in {Completed, Failed, TimedOut} ==> h[i - 1] == Running
  {
    assert |h| > 1 ==> CanTransit(h[0], h[1]);
    assert |h| > 2 ==> CanTransit(h[1], h[2]);
    assert |h| > 3 ==> CanTransit(h[2], h[3]);
  }

  /** A status is terminal exactly when nothing is accepted from it, skipped apart, which only is not called so. */
  lemma TerminalMeansFinal(s: Status)
    ensures IsTerminalState(s) <==> s != Skipped && forall target :: !CanTransit(s, target)
  {
    assert CanTransit(Pending, Running) && CanTransit(Running, Completed);
  }

  /** The six accepted pairs, and the audit entry or error that goes with each request. */
  lemma TransitionsAreExact(current: Status, target: Status, taskId: Id, now: int)
    ensures var r := Transit(current, target, taskId, now);
            && (r.Accepted? <==>
                  (current, target) in {(Pending, Running), (Pending, Cancelled), (Running, Completed),
                                        (Running, Failed), (Running, Cancelled), (Running, TimedOut)})
            && r == (if r.Accepted? then Accepted(taskId, current, target, now) else Rejected(taskId, current, target))
  {
  }
}
